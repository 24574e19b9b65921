/**
  The deterministic text hashed by src/shared/utils/crypto.ts: normalise the
  payload, print it as JSON (RFC 8259 sections 4, 5 and 7), erase whitespace.
 */
module CanonicalText {
  import opened Common

  datatype List<T> = Nil | Cons(head: T, tail: List<T>)

  datatype Member = Member(key: string, value: Value)

  /** A payload as the caller holds it: members in insertion order, some of them
      undefined, and dates not yet turned into text. */
  datatype Value =
    | Undefined
    | Null
    | Bool(b: bool)
    | Num(n: int)
    | Str(s: string)
    | Date(iso: string)
    | Arr(items: List<Value>)
    | Obj(members: List<Member>)

  // ------------------------------------------------------------ normalisation

  /** Code-unit order of keys. */
  predicate Before(a: string, b: string) {
    if a == [] then b != []
    else b != [] && (a[0] < b[0] || (a[0] == b[0] && Before(a[1..], b[1..])))
  }

  lemma {:induction false} BeforeIrreflexive(a: string)
    ensures !Before(a, a)
  {
    if a != [] {
      BeforeIrreflexive(a[1..]);
    }
  }

  lemma {:induction false} BeforeTransitive(a: string, b: string, c: string)
    requires Before(a, b) && Before(b, c)
    ensures Before(a, c)
  {
    if a != [] && a[0] == b[0] == c[0] {
      BeforeTransitive(a[1..], b[1..], c[1..]);
    }
  }

  lemma {:induction false} BeforeTotal(a: string, b: string)
    ensures a == b || Before(a, b) || Before(b, a)
  {
    if a != [] && b != [] && a[0] == b[0] {
      BeforeTotal(a[1..], b[1..]);
      assert a == [a[0]] + a[1..] && b == [b[0]] + b[1..];
    }
  }

  /** At `at` the first key ends or has the smaller character, and up to there the two agree. */
  predicate SmallerAt(a: string, b: string, at: nat) {
    at < |b| && at <= |a| && a[..at] == b[..at] && (at == |a| || a[at] < b[at])
  }

  /** The order is the lexicographic one: the first difference decides. */
  lemma {:induction false} BeforeMeaning(a: string, b: string)
    ensures Before(a, b) <==> exists at :: SmallerAt(a, b, at)
    decreases |a|
  {
    if a == [] || b == [] || a[0] != b[0] {
      assert SmallerAt(a, b, 0) <==> Before(a, b);
    } else {
      BeforeMeaning(a[1..], b[1..]);
      if Before(a, b) {
        var at :| SmallerAt(a[1..], b[1..], at);
        SmallerLater(a, b, at);
      }
      if at: nat :| SmallerAt(a, b, at) {
        assert at > 0;
        SmallerLater(a, b, at - 1);
      }
    }
  }

  lemma SmallerLater(a: string, b: string, at: nat)
    requires a != [] && b != [] && a[0] == b[0]
    ensures SmallerAt(a[1..], b[1..], at) <==> SmallerAt(a, b, at + 1)
  {
    if at < |b| - 1 && at <= |a| - 1 {
      assert a[..at + 1] == [a[0]] + a[1..][..at] && b[..at + 1] == [b[0]] + b[1..][..at];
      assert a[1..][..at] == a[..at + 1][1..] && b[1..][..at] == b[..at + 1][1..];
    }
  }

  function Insert(m: Member, sorted: List<Member>): List<Member> {
    match sorted
    case Nil => Cons(m, Nil)
    case Cons(first, rest) =>
      if Before(first.key, m.key) then Cons(first, Insert(m, rest)) else Cons(m, sorted)
  }

  function Normalize(v: Value): Value {
    match v
    case Date(iso) => Str(iso)
    case Arr(items) => Arr(NormalizeItems(items))
    case Obj(members) => Obj(NormalizeMembers(members))
    case _ => v
  }

  function NormalizeItems(items: List<Value>): List<Value> {
    match items
    case Nil => Nil
    case Cons(first, rest) => Cons(Normalize(first), NormalizeItems(rest))
  }

  function NormalizeMembers(members: List<Member>): List<Member> {
    match members
    case Nil => Nil
    case Cons(m, rest) =>
      if m.value.Undefined? then NormalizeMembers(rest)
      else Insert(Member(m.key, Normalize(m.value)), NormalizeMembers(rest))
  }

  // --------------------------------------------------------------- meaning

  /** What a payload means: objects are finite maps without undefined members,
      and an undefined array item reads as null. */
  datatype Meaning =
    | MNothing
    | MNull
    | MBool(b: bool)
    | MNum(n: int)
    | MStr(s: string)
    | MArr(items: seq<Meaning>)
    | MObj(members: map<string, Meaning>)

  function Mean(v: Value): Meaning {
    match v
    case Undefined => MNothing
    case Null => MNull
    case Bool(b) => MBool(b)
    case Num(n) => MNum(n)
    case Str(s) => MStr(s)
    case Date(iso) => MStr(iso)
    case Arr(items) => MArr(MeanItems(items))
    case Obj(members) => MObj(MeanMembers(members))
  }

  function MeanItems(items: List<Value>): seq<Meaning> {
    match items
    case Nil => []
    case Cons(first, rest) =>
      [if first.Undefined? then MNull else Mean(first)] + MeanItems(rest)
  }

  function MeanMembers(members: List<Member>): map<string, Meaning> {
    match members
    case Nil => map[]
    case Cons(m, rest) =>
      if m.value.Undefined? then MeanMembers(rest) else MeanMembers(rest)[m.key := Mean(m.value)]
  }

  predicate HasKey(members: List<Member>, key: string) {
    match members
    case Nil => false
    case Cons(m, rest) => m.key == key || HasKey(rest, key)
  }

  /** An object holds each key once. */
  predicate WellFormed(v: Value) {
    match v
    case Arr(items) => ItemsWellFormed(items)
    case Obj(members) => MembersWellFormed(members)
    case _ => true
  }

  predicate ItemsWellFormed(items: List<Value>) {
    match items
    case Nil => true
    case Cons(first, rest) => WellFormed(first) && ItemsWellFormed(rest)
  }

  predicate MembersWellFormed(members: List<Member>) {
    match members
    case Nil => true
    case Cons(m, rest) => !HasKey(rest, m.key) && WellFormed(m.value) && MembersWellFormed(rest)
  }

  // ------------------------------------------------- normal forms are canonical

  /** Every key of the list comes after `key`. */
  predicate AllAfter(key: string, members: List<Member>) {
    match members
    case Nil => true
    case Cons(m, rest) => Before(key, m.key) && AllAfter(key, rest)
  }

  predicate Normal(v: Value) {
    match v
    case Date(_) => false
    case Arr(items) => ItemsNormal(items)
    case Obj(members) => MembersNormal(members)
    case _ => true
  }

  predicate ItemsNormal(items: List<Value>) {
    match items
    case Nil => true
    case Cons(first, rest) => Normal(first) && ItemsNormal(rest)
  }

  predicate MembersNormal(members: List<Member>) {
    match members
    case Nil => true
    case Cons(m, rest) =>
      !m.value.Undefined? && Normal(m.value) && AllAfter(m.key, rest) && MembersNormal(rest)
  }

  lemma {:induction false} AllAfterWeaken(a: string, b: string, members: List<Member>)
    requires Before(a, b) && AllAfter(b, members)
    ensures AllAfter(a, members)
  {
    match members
    case Nil =>
    case Cons(m, rest) =>
      BeforeTransitive(a, b, m.key);
      AllAfterWeaken(a, b, rest);
  }

  lemma {:induction false} InsertAfter(key: string, m: Member, members: List<Member>)
    requires Before(key, m.key) && AllAfter(key, members)
    ensures AllAfter(key, Insert(m, members))
  {
    match members
    case Nil =>
    case Cons(first, rest) => InsertAfter(key, m, rest);
  }

  lemma {:induction false} InsertNormal(m: Member, members: List<Member>)
    requires MembersNormal(members) && Normal(m.value) && !m.value.Undefined? && m.key !in MeanMembers(members)
    ensures MembersNormal(Insert(m, members))
    ensures MeanMembers(Insert(m, members)) == MeanMembers(members)[m.key := Mean(m.value)]
  {
    match members
    case Nil =>
    case Cons(first, rest) =>
      BeforeTotal(first.key, m.key);
      if Before(first.key, m.key) {
        BeforeIrreflexive(m.key);
        InsertNormal(m, rest);
        InsertAfter(first.key, m, rest);
      } else {
        AllAfterWeaken(m.key, first.key, rest);
      }
  }

  lemma {:induction false} MeanKeys(members: List<Member>, key: string)
    requires key in MeanMembers(members)
    ensures HasKey(members, key)
  {
    match members
    case Nil =>
    case Cons(m, rest) =>
      if m.key != key {
        MeanKeys(rest, key);
      }
  }

  /** Normalising gives a normal form and keeps the meaning. */
  lemma {:induction false} NormalizeMeans(v: Value)
    requires WellFormed(v)
    ensures Normal(Normalize(v)) && Mean(Normalize(v)) == Mean(v)
    ensures Normalize(v).Undefined? <==> v.Undefined?
  {
    match v
    case Arr(items) => NormalizeItemsMean(items);
    case Obj(members) => NormalizeMembersMean(members);
    case _ =>
  }

  lemma {:induction false} NormalizeItemsMean(items: List<Value>)
    requires ItemsWellFormed(items)
    ensures ItemsNormal(NormalizeItems(items)) && MeanItems(NormalizeItems(items)) == MeanItems(items)
  {
    match items
    case Nil =>
    case Cons(first, rest) =>
      NormalizeMeans(first);
      NormalizeItemsMean(rest);
  }

  lemma {:induction false} NormalizeMembersMean(members: List<Member>)
    requires MembersWellFormed(members)
    ensures MembersNormal(NormalizeMembers(members))
    ensures MeanMembers(NormalizeMembers(members)) == MeanMembers(members)
  {
    match members
    case Nil =>
    case Cons(m, rest) =>
      NormalizeMembersMean(rest);
      NormalizeMeans(m.value);
      if !m.value.Undefined? {
        if m.key in MeanMembers(rest) {
          MeanKeys(rest, m.key);
        }
        InsertNormal(Member(m.key, Normalize(m.value)), NormalizeMembers(rest));
      }
  }

  lemma {:induction false} NotBefore(key: string, members: List<Member>)
    requires AllAfter(key, members)
    ensures key !in MeanMembers(members)
  {
    match members
    case Nil =>
    case Cons(m, rest) =>
      BeforeIrreflexive(key);
      NotBefore(key, rest);
  }

  lemma {:induction false} KeysAfter(key: string, members: List<Member>, k: string)
    requires AllAfter(key, members) && k in MeanMembers(members)
    ensures Before(key, k)
  {
    match members
    case Nil =>
    case Cons(m, rest) =>
      if k in MeanMembers(rest) {
        KeysAfter(key, rest, k);
      }
  }

  /** An undefined array item is printed as null, so the two count as one. */
  function Settled(v: Value): Value {
    match v
    case Arr(items) => Arr(SettledItems(items))
    case Obj(members) => Obj(SettledMembers(members))
    case _ => v
  }

  function SettledItems(items: List<Value>): List<Value> {
    match items
    case Nil => Nil
    case Cons(first, rest) => Cons(if first.Undefined? then Null else Settled(first), SettledItems(rest))
  }

  function SettledMembers(members: List<Member>): List<Member> {
    match members
    case Nil => Nil
    case Cons(m, rest) => Cons(Member(m.key, Settled(m.value)), SettledMembers(rest))
  }

  lemma {:induction false} NormalIsCanonical(v: Value, w: Value)
    requires Normal(v) && Normal(w) && Mean(v) == Mean(w)
    ensures Settled(v) == Settled(w)
  {
    match v
    case Arr(items) => NormalItemsAreCanonical(items, w.items);
    case Obj(members) => NormalMembersAreCanonical(members, w.members);
    case _ =>
  }

  lemma {:induction false} NormalItemsAreCanonical(a: List<Value>, b: List<Value>)
    requires ItemsNormal(a) && ItemsNormal(b) && MeanItems(a) == MeanItems(b)
    ensures SettledItems(a) == SettledItems(b)
  {
    match a
    case Nil =>
    case Cons(first, rest) =>
      assert MeanItems(a)[1..] == MeanItems(rest) && MeanItems(b)[1..] == MeanItems(b.tail);
      assert MeanItems(a)[0] == MeanItems(b)[0];
      NormalItemsAreCanonical(rest, b.tail);
      if !first.Undefined? && !b.head.Undefined? {
        NormalIsCanonical(first, b.head);
      }
  }

  lemma {:induction false} NormalMembersAreCanonical(a: List<Member>, b: List<Member>)
    requires MembersNormal(a) && MembersNormal(b) && MeanMembers(a) == MeanMembers(b)
    ensures SettledMembers(a) == SettledMembers(b)
  {
    assert a.Cons? ==> a.head.key in MeanMembers(a);
    assert b.Cons? ==> b.head.key in MeanMembers(b);
    if a.Cons? && b.Cons? {
      var m, rest, n, others := a.head, a.tail, b.head, b.tail;
      NotBefore(m.key, rest);
      NotBefore(n.key, others);
      assert m.key in MeanMembers(a) && n.key in MeanMembers(b);
      if m.key != n.key {
        KeysAfter(m.key, rest, n.key);
        KeysAfter(n.key, others, m.key);
        BeforeTransitive(m.key, n.key, m.key);
        BeforeIrreflexive(m.key);
        assert false;
      }
      assert MeanMembers(a) - {m.key} == MeanMembers(rest);
      assert MeanMembers(b) - {m.key} == MeanMembers(others);
      assert MeanMembers(a)[m.key] == MeanMembers(b)[m.key];
      NormalIsCanonical(m.value, n.value);
      NormalMembersAreCanonical(rest, others);
    }
  }

  /** Normalisation forgets exactly what does not belong to the meaning: the
      order of keys, undefined members, and whether a date was already text. */
  lemma {:induction false} NormalizeDecidesMeaning(v: Value, w: Value)
    requires WellFormed(v) && WellFormed(w)
    ensures Settled(Normalize(v)) == Settled(Normalize(w)) <==> Mean(v) == Mean(w)
  {
    NormalizeMeans(v);
    NormalizeMeans(w);
    if Mean(v) == Mean(w) {
      NormalIsCanonical(Normalize(v), Normalize(w));
    }
    SettledMeans(Normalize(v));
    SettledMeans(Normalize(w));
  }

  lemma {:induction false} SettledMeans(v: Value)
    ensures Mean(Settled(v)) == Mean(v) && (Settled(v).Undefined? <==> v.Undefined?)
  {
    match v
    case Arr(items) => SettledItemsMean(items);
    case Obj(members) => SettledMembersMean(members);
    case _ =>
  }

  lemma {:induction false} SettledItemsMean(items: List<Value>)
    ensures MeanItems(SettledItems(items)) == MeanItems(items)
  {
    match items
    case Nil =>
    case Cons(first, rest) =>
      SettledMeans(first);
      SettledItemsMean(rest);
  }

  lemma {:induction false} SettledMembersMean(members: List<Member>)
    ensures MeanMembers(SettledMembers(members)) == MeanMembers(members)
  {
    match members
    case Nil =>
    case Cons(m, rest) =>
      SettledMeans(m.value);
      SettledMembersMean(rest);
  }

  lemma {:induction false} NormalIsFixed(v: Value)
    requires Normal(v)
    ensures Normalize(v) == v
  {
    match v
    case Arr(items) => NormalItemsAreFixed(items);
    case Obj(members) => NormalMembersAreFixed(members);
    case _ =>
  }

  lemma {:induction false} NormalItemsAreFixed(items: List<Value>)
    requires ItemsNormal(items)
    ensures NormalizeItems(items) == items
  {
    match items
    case Nil =>
    case Cons(first, rest) =>
      NormalIsFixed(first);
      NormalItemsAreFixed(rest);
  }

  lemma {:induction false} NormalMembersAreFixed(members: List<Member>)
    requires MembersNormal(members)
    ensures NormalizeMembers(members) == members
  {
    match members
    case Nil =>
    case Cons(m, rest) =>
      NormalIsFixed(m.value);
      NormalMembersAreFixed(rest);
      if rest.Cons? && Before(rest.head.key, m.key) {
        BeforeTransitive(m.key, rest.head.key, m.key);
        BeforeIrreflexive(m.key);
      }
  }

  lemma {:induction false} NormalizeIdempotent(v: Value)
    requires WellFormed(v)
    ensures Normalize(Normalize(v)) == Normalize(v)
  {
    NormalizeMeans(v);
    NormalIsFixed(Normalize(v));
  }

  // ---------------------------------------------------------------- printing

  /** One character of a JSON string, RFC 8259 section 7. */
  function EscapeChar(c: char): (t: string)
    ensures t != [] && t[0] != '"'
    ensures t[0] == '\\' <==> c == '"' || c == '\\' || c < ' '
    ensures t[0] != '\\' ==> t == [c]
  {
    var code := c as int;
    if c == '"' then "\\\""
    else if c == '\\' then "\\\\"
    else if code == 8 then "\\b"
    else if code == 9 then "\\t"
    else if code == 10 then "\\n"
    else if code == 12 then "\\f"
    else if code == 13 then "\\r"
    else if code < 32 then "\\u00" + [HexDigit(code / 16), HexDigit(code % 16)]
    else [c]
  }

  function HexDigit(d: int): (c: char)
    requires 0 <= d < 16
  {
    "0123456789abcdef"[d]
  }

  function Escape(s: string): string {
    if s == [] then [] else EscapeChar(s[0]) + Escape(s[1..])
  }

  function Quote(s: string): string {
    "\"" + Escape(s) + "\""
  }

  function Digits(n: nat): (t: string)
    ensures t != [] && forall c :: c in t ==> '0' <= c <= '9'
  {
    var last := [('0' as int + n % 10) as char];
    if n < 10 then last else Digits(n / 10) + last
  }

  function Decimal(n: int): (t: string)
    ensures t != [] && forall c :: c in t ==> c == '-' || '0' <= c <= '9'
  {
    if n < 0 then "-" + Digits(-n) else Digits(n)
  }

  function Print(v: Value): string {
    match v
    case Undefined => "null"
    case Null => "null"
    case Bool(b) => if b then "true" else "false"
    case Num(n) => Decimal(n)
    case Str(s) => Quote(s)
    case Date(iso) => Quote(iso)
    case Arr(items) => "[" + PrintItems(items, "")
    case Obj(members) => "{" + PrintMembers(members, "")
  }

  /** The items of an array and its closing bracket; `lead` is the comma. */
  function PrintItems(items: List<Value>, lead: string): string {
    match items
    case Nil => "]"
    case Cons(first, rest) => lead + (Print(first) + PrintItems(rest, ","))
  }

  function PrintMembers(members: List<Member>, lead: string): string {
    match members
    case Nil => "}"
    case Cons(m, rest) => lead + (Quote(m.key) + (":" + (Print(m.value) + PrintMembers(rest, ","))))
  }

  // --------------------------------------------------------- values as printed

  /** Values as the printer sees them. */
  predicate Printable(v: Value) {
    match v
    case Undefined => false
    case Date(_) => false
    case Arr(items) => ItemsPrintable(items)
    case Obj(members) => MembersPrintable(members)
    case _ => true
  }

  predicate ItemsPrintable(items: List<Value>) {
    match items
    case Nil => true
    case Cons(first, rest) => Printable(first) && ItemsPrintable(rest)
  }

  predicate MembersPrintable(members: List<Member>) {
    match members
    case Nil => true
    case Cons(m, rest) => Printable(m.value) && MembersPrintable(rest)
  }

  predicate Delimited(rest: string) {
    rest == [] || rest[0] == ',' || rest[0] == ']' || rest[0] == '}'
  }

  // ------------------------------------------------------------ reading it back

  /** What was read and what follows it; None for text that is not a value. */
  type Parsed<T> = Option<(T, string)>

  predicate IsDigit(c: char) {
    '0' <= c <= '9'
  }

  function ReadDigits(s: string): (r: (string, string))
    ensures r.0 + r.1 == s
  {
    if s == [] || !IsDigit(s[0]) then ("", s)
    else
      var (digits, rest) := ReadDigits(s[1..]);
      ([s[0]] + digits, rest)
  }

  /** The number that decimal digits stand for. */
  function NumberValue(digits: string): int {
    if digits == [] then 0
    else 10 * NumberValue(digits[..|digits| - 1]) + (digits[|digits| - 1] as int - '0' as int)
  }

  /** An integer by RFC 8259 section 6: no superfluous zero in front. */
  function ReadNumber(s: string): (r: Parsed<int>)
    ensures r.Some? ==> |r.value.1| < |s|
  {
    var negative := s != [] && s[0] == '-';
    var (digits, rest) := ReadDigits(if negative then s[1..] else s);
    if digits == [] || (|digits| > 1 && digits[0] == '0') then None
    else Some((if negative then -NumberValue(digits) else NumberValue(digits), rest))
  }

  function HexValue(c: char): Option<int> {
    if '0' <= c <= '9' then Some(c as int - '0' as int)
    else if 'a' <= c <= 'f' then Some(c as int - 'a' as int + 10)
    else if 'A' <= c <= 'F' then Some(c as int - 'A' as int + 10)
    else None
  }

  function ReadHex(s: string): Option<int> {
    if s == [] then Some(0)
    else
      var front := ReadHex(s[..|s| - 1]);
      var last := HexValue(s[|s| - 1]);
      if front.None? || last.None? then None else Some(16 * front.value + last.value)
  }

  /** What follows a backslash, RFC 8259 section 7; surrogates stand for no character. */
  function ReadEscape(s: string): (r: Parsed<char>)
    ensures r.Some? ==> |r.value.1| < |s|
  {
    if s == [] then None
    else if s[0] == '"' || s[0] == '\\' || s[0] == '/' then Some((s[0], s[1..]))
    else if s[0] == 'b' then Some((8 as char, s[1..]))
    else if s[0] == 'f' then Some((12 as char, s[1..]))
    else if s[0] == 'n' then Some((10 as char, s[1..]))
    else if s[0] == 'r' then Some((13 as char, s[1..]))
    else if s[0] == 't' then Some((9 as char, s[1..]))
    else if s[0] == 'u' && |s| >= 5 then
      var code := ReadHex(s[1..5]);
      if code.Some? && (0 <= code.value < 0xD800 || 0xE000 <= code.value < 0x10000)
      then Some((code.value as char, s[5..])) else None
    else None
  }

  /** The characters of a string and its closing quote. */
  function ReadChars(s: string): (r: Parsed<string>)
    ensures r.Some? ==> |r.value.1| < |s|
    decreases |s|
  {
    if s == [] || s[0] < ' ' then None
    else if s[0] == '"' then Some(("", s[1..]))
    else
      var first := if s[0] == '\\' then ReadEscape(s[1..]) else Some((s[0], s[1..]));
      if first.None? then None
      else
        var others := ReadChars(first.value.1);
        if others.None? then None else Some(([first.value.0] + others.value.0, others.value.1))
  }

  /** A JSON text without insignificant whitespace, RFC 8259 sections 3 to 7. */
  function ReadValue(s: string): (r: Parsed<Value>)
    ensures r.Some? ==> |r.value.1| < |s|
    decreases |s|, 0
  {
    if s == [] then None
    else if s[0] == '{' then
      var r := ReadMembers(s[1..]);
      if r.None? then None else Some((Obj(r.value.0), r.value.1))
    else if s[0] == '[' then
      var r := ReadItems(s[1..]);
      if r.None? then None else Some((Arr(r.value.0), r.value.1))
    else if s[0] == '"' then
      var r := ReadChars(s[1..]);
      if r.None? then None else Some((Str(r.value.0), r.value.1))
    else if s[0] == '-' || IsDigit(s[0]) then
      var r := ReadNumber(s);
      if r.None? then None else Some((Num(r.value.0), r.value.1))
    else if "null" <= s then Some((Null, s[4..]))
    else if "true" <= s then Some((Bool(true), s[4..]))
    else if "false" <= s then Some((Bool(false), s[5..]))
    else None
  }

  function ReadItems(s: string): (r: Parsed<List<Value>>)
    ensures r.Some? ==> |r.value.1| < |s|
    decreases |s|, 2
  {
    if s != [] && s[0] == ']' then Some((Nil, s[1..])) else ReadSomeItems(s)
  }

  function ReadSomeItems(s: string): (r: Parsed<List<Value>>)
    ensures r.Some? ==> |r.value.1| < |s|
    decreases |s|, 1
  {
    var first := ReadValue(s);
    if first.None? || first.value.1 == [] then None
    else
      var (v, rest) := first.value;
      if rest[0] == ']' then Some((Cons(v, Nil), rest[1..]))
      else if rest[0] == ',' then
        var others := ReadSomeItems(rest[1..]);
        if others.None? then None else Some((Cons(v, others.value.0), others.value.1))
      else None
  }

  function ReadMembers(s: string): (r: Parsed<List<Member>>)
    ensures r.Some? ==> |r.value.1| < |s|
    decreases |s|, 2
  {
    if s != [] && s[0] == '}' then Some((Nil, s[1..])) else ReadSomeMembers(s)
  }

  function ReadSomeMembers(s: string): (r: Parsed<List<Member>>)
    ensures r.Some? ==> |r.value.1| < |s|
    decreases |s|, 1
  {
    var first := ReadMember(s);
    if first.None? || first.value.1 == [] then None
    else
      var (m, rest) := first.value;
      if rest[0] == '}' then Some((Cons(m, Nil), rest[1..]))
      else if rest[0] == ',' then
        var others := ReadSomeMembers(rest[1..]);
        if others.None? then None else Some((Cons(m, others.value.0), others.value.1))
      else None
  }

  function ReadMember(s: string): (r: Parsed<Member>)
    ensures r.Some? ==> |r.value.1| < |s|
    decreases |s|, 0
  {
    if s == [] || s[0] != '"' then None
    else
      var key := ReadChars(s[1..]);
      if key.None? || key.value.1 == [] || key.value.1[0] != ':' then None
      else
        var value := ReadValue(key.value.1[1..]);
        if value.None? then None else Some((Member(key.value.0, value.value.0), value.value.1))
  }

  // ---------------------------------------------------- strings and numbers

  lemma {:induction false} HexReadsBack(d: int)
    requires 0 <= d < 16
    ensures HexValue(HexDigit(d)) == Some(d)
  {
  }

  lemma {:induction false} CodeReadsBack(c: char)
    requires c < ' '
    ensures ReadHex(['0', '0', HexDigit(c as int / 16), HexDigit(c as int % 16)]) == Some(c as int)
  {
    var high, low := HexDigit(c as int / 16), HexDigit(c as int % 16);
    HexReadsBack(c as int / 16);
    HexReadsBack(c as int % 16);
    assert ['0', '0', high, low][..3] == ['0', '0', high];
    assert ['0', '0', high][..2] == ['0', '0'];
    assert ['0', '0'][..1] == ['0'];
    assert ['0'][..0] == [];
    assert ReadHex(['0', '0', high]) == Some(c as int / 16);
  }

  /** Each escape stands for its character. */
  lemma {:induction false} EscapeReadsBack(c: char, x: string)
    requires EscapeChar(c)[0] == '\\'
    ensures ReadEscape(EscapeChar(c)[1..] + x) == Some((c, x))
  {
    var t := EscapeChar(c)[1..];
    assert (t + x)[0] == t[0] && (t + x)[|t|..] == x;
    if |t| == 5 {
      CodeReadsBack(c);
      assert (t + x)[1..5] == ['0', '0', HexDigit(c as int / 16), HexDigit(c as int % 16)];
    }
  }

  /** The printer's choice among the escapes: none where none is needed, two characters
      for the quote, the backslash and the five common controls, lower-case hexadecimal
      for the other controls. */
  lemma EscapesAreShort(c: char)
    ensures |EscapeChar(c)| == if c >= ' ' && c != '"' && c != '\\' then 1
                               else if c >= ' ' || c as int in {8, 9, 10, 12, 13} then 2 else 6
    ensures forall d <- EscapeChar(c) :: c < ' ' ==> !('A' <= d <= 'Z')
  {
  }

  lemma {:induction false} EscapedFirst(s: string, x: string)
    requires s != []
    ensures Escape(s) + x == EscapeChar(s[0]) + (Escape(s[1..]) + x)
  {
    Regroup(EscapeChar(s[0]), Escape(s[1..]), x);
  }

  lemma {:induction false} FirstCharReadsBack(c: char, y: string)
    ensures ReadChars(EscapeChar(c) + y) == match ReadChars(y)
                                            case None => None
                                            case Some(r) => Some(([c] + r.0, r.1))
  {
    var t := EscapeChar(c);
    assert (t + y)[0] == t[0];
    if t[0] == '\\' {
      EscapeReadsBack(c, y);
      assert (t + y)[1..] == t[1..] + y;
    } else {
      assert (t + y)[1..] == y;
    }
  }

  lemma {:induction false} CharsReadBack(s: string, x: string)
    ensures ReadChars(Escape(s) + ("\"" + x)) == Some((s, x))
  {
    if s == [] {
      assert Escape([]) + ("\"" + x) == "\"" + x;
      assert ("\"" + x)[1..] == x;
    } else {
      EscapedFirst(s, "\"" + x);
      CharsReadBack(s[1..], x);
      FirstCharReadsBack(s[0], Escape(s[1..]) + ("\"" + x));
      assert s == [s[0]] + s[1..];
    }
  }

  lemma {:induction false} QuoteText(s: string, x: string)
    ensures Quote(s) + x == "\"" + (Escape(s) + ("\"" + x))
  {
    var e := Escape(s);
    assert "\"" + e + "\"" + x == "\"" + (e + ("\"" + x));
  }

  lemma {:induction false} TextOfDigits(t: string, x: string)
    requires (forall c :: c in t ==> IsDigit(c)) && (x != [] ==> !IsDigit(x[0]))
    ensures ReadDigits(t + x) == (t, x)
  {
    if t == [] {
      assert t + x == x;
    } else {
      assert t[0] in t && (t + x)[0] == t[0] && (t + x)[1..] == t[1..] + x;
      TextOfDigits(t[1..], x);
      assert t == [t[0]] + t[1..];
    }
  }

  /** The digits of a number stand for it, and the first is zero for zero only. */
  lemma {:induction false} DigitsReadBack(n: nat)
    ensures NumberValue(Digits(n)) == n
    ensures Digits(n)[0] == '0' <==> n == 0
    ensures |Digits(n)| > 1 ==> Digits(n)[0] != '0'
  {
    var t := Digits(n);
    assert t[|t| - 1] as int - '0' as int == n % 10;
    if n < 10 {
      assert t[..0] == [];
    } else {
      assert t[..|t| - 1] == Digits(n / 10);
      DigitsReadBack(n / 10);
    }
  }

  lemma {:induction false} DecimalReadsBack(n: int, x: string)
    requires Delimited(x)
    ensures ReadNumber(Decimal(n) + x) == Some((n, x))
  {
    var digits := Digits(if n < 0 then -n else n);
    DigitsReadBack(if n < 0 then -n else n);
    TextOfDigits(digits, x);
    if n < 0 {
      Regroup("-", digits, x);
      assert ("-" + (digits + x))[1..] == digits + x;
    } else {
      assert digits[0] in digits && digits[0] != '-';
      assert (digits + x)[0] == digits[0];
    }
  }

  // -------------------------------------------------------------- whole values

  lemma {:induction false} NumberTextReads(n: int, x: string)
    requires Delimited(x)
    ensures ReadValue(Decimal(n) + x) == Some((Num(n), x))
  {
    DecimalReadsBack(n, x);
    assert Decimal(n)[0] in Decimal(n);
    assert (Decimal(n) + x)[0] == Decimal(n)[0];
  }

  lemma {:induction false} LiteralReads(v: Value, x: string)
    requires v.Null? || v.Bool?
    ensures ReadValue(Print(v) + x) == Some((v, x))
  {
    var t := Print(v);
    assert (t + x)[0] == t[0];
    assert t <= t + x && (t + x)[|t|..] == x;
    if v == Bool(true) {
      assert !("null" <= t + x);
    } else if v == Bool(false) {
      assert !("null" <= t + x) && !("true" <= t + x);
    }
  }

  /** The first character tells a value from a closing bracket. */
  lemma {:induction false} PrintOpens(v: Value)
    requires Printable(v)
    ensures Print(v) != [] && Print(v)[0] != ']' && Print(v)[0] != '}'
  {
    if v.Num? {
      assert Print(v)[0] in Decimal(v.n);
    }
  }

  lemma {:induction false} ItemText(items: List<Value>, x: string)
    requires items.Cons?
    ensures PrintItems(items, "") + x == Print(items.head) + (PrintItems(items.tail, ",") + x)
    ensures PrintItems(items, ",") + x == "," + (PrintItems(items, "") + x)
  {
    var v, rest := Print(items.head), PrintItems(items.tail, ",");
    assert "" + (v + rest) == v + rest;
    Regroup(v, rest, x);
    Regroup(",", v + rest, x);
  }

  lemma {:induction false} MemberText(members: List<Member>, x: string)
    requires members.Cons?
    ensures var m, others := members.head, PrintMembers(members.tail, ",") + x;
      PrintMembers(members, "") + x == "\"" + (Escape(m.key) + ("\"" + (":" + (Print(m.value) + others))))
    ensures PrintMembers(members, ",") + x == "," + (PrintMembers(members, "") + x)
  {
    var key, value, rest := Quote(members.head.key), Print(members.head.value), PrintMembers(members.tail, ",");
    assert "" + (key + (":" + (value + rest))) == key + (":" + (value + rest));
    Regroup(key, ":" + (value + rest), x);
    Regroup(":", value + rest, x);
    Regroup(value, rest, x);
    QuoteText(members.head.key, ":" + (value + (rest + x)));
    Regroup(",", key + (":" + (value + rest)), x);
  }

  /** The text of a value, read by the standard, gives the value back and leaves what
      follows. */
  lemma {:induction false} PrintReadsBack(v: Value, x: string)
    requires Printable(v) && Delimited(x)
    ensures ReadValue(Print(v) + x) == Some((v, x))
    decreases v, 0
  {
    match v
    case Num(n) => NumberTextReads(n, x);
    case Str(s) =>
      QuoteText(s, x);
      CharsReadBack(s, x);
      assert ("\"" + (Escape(s) + ("\"" + x)))[1..] == Escape(s) + ("\"" + x);
    case Arr(items) =>
      Regroup("[", PrintItems(items, ""), x);
      ItemsReadBack(items, x);
      assert ("[" + (PrintItems(items, "") + x))[1..] == PrintItems(items, "") + x;
    case Obj(members) =>
      Regroup("{", PrintMembers(members, ""), x);
      MembersReadBack(members, x);
      assert ("{" + (PrintMembers(members, "") + x))[1..] == PrintMembers(members, "") + x;
    case _ => LiteralReads(v, x);
  }

  lemma {:induction false} ItemsReadBack(items: List<Value>, x: string)
    requires ItemsPrintable(items)
    ensures ReadItems(PrintItems(items, "") + x) == Some((items, x))
    decreases items, 1
  {
    if items.Nil? {
      assert ("]" + x)[1..] == x;
    } else {
      PrintOpens(items.head);
      ItemText(items, x);
      assert (PrintItems(items, "") + x)[0] == Print(items.head)[0];
      SomeItemsReadBack(items, x);
    }
  }

  lemma {:induction false} SomeItemsReadBack(items: List<Value>, x: string)
    requires items.Cons? && ItemsPrintable(items)
    ensures ReadSomeItems(PrintItems(items, "") + x) == Some((items, x))
    decreases items, 0
  {
    var rest := PrintItems(items.tail, ",") + x;
    ItemText(items, x);
    if items.tail.Nil? {
      assert rest == "]" + x && rest[1..] == x;
    } else {
      ItemText(items.tail, x);
      SomeItemsReadBack(items.tail, x);
      assert rest[1..] == PrintItems(items.tail, "") + x;
    }
    PrintReadsBack(items.head, rest);
  }

  lemma {:induction false} MembersReadBack(members: List<Member>, x: string)
    requires MembersPrintable(members)
    ensures ReadMembers(PrintMembers(members, "") + x) == Some((members, x))
    decreases members, 1
  {
    if members.Nil? {
      assert ("}" + x)[1..] == x;
    } else {
      MemberText(members, x);
      SomeMembersReadBack(members, x);
    }
  }

  lemma {:induction false} MemberReadsBack(m: Member, others: string)
    requires Printable(m.value) && Delimited(others)
    ensures ReadMember("\"" + (Escape(m.key) + ("\"" + (":" + (Print(m.value) + others))))) == Some((m, others))
    decreases m, 0
  {
    var text := Print(m.value) + others;
    CharsReadBack(m.key, ":" + text);
    PrintReadsBack(m.value, others);
    assert ("\"" + (Escape(m.key) + ("\"" + (":" + text))))[1..] == Escape(m.key) + ("\"" + (":" + text));
    assert (":" + text)[1..] == text;
  }

  lemma {:induction false} SomeMembersReadBack(members: List<Member>, x: string)
    requires members.Cons? && MembersPrintable(members)
    ensures ReadSomeMembers(PrintMembers(members, "") + x) == Some((members, x))
    decreases members, 0
  {
    var rest := PrintMembers(members.tail, ",") + x;
    MemberText(members, x);
    if members.tail.Nil? {
      assert rest == "}" + x && rest[1..] == x;
    } else {
      MemberText(members.tail, x);
      SomeMembersReadBack(members.tail, x);
      assert rest[1..] == PrintMembers(members.tail, "") + x;
    }
    MemberReadsBack(members.head, rest);
  }

  /** No printed value is the beginning of another: the text determines it. */
  lemma {:induction false} PrintReads(v: Value, w: Value, x: string, y: string)
    requires Printable(v) && Printable(w) && Delimited(x) && Delimited(y)
    requires Print(v) + x == Print(w) + y
    ensures v == w && x == y
  {
    PrintReadsBack(v, x);
    PrintReadsBack(w, y);
  }

  // ------------------------------------------------------- erasing whitespace

  /** The characters matched by \s. */
  predicate IsSpace(c: char) {
    var code := c as int;
    || 9 <= code <= 13 || code == 32 || code == 0xA0 || code == 0x1680 || 0x2000 <= code <= 0x200A
    || code == 0x2028 || code == 0x2029 || code == 0x202F || code == 0x205F || code == 0x3000 || code == 0xFEFF
  }

  function Strip(s: string): string {
    if s == [] then [] else (if IsSpace(s[0]) then [] else [s[0]]) + Strip(s[1..])
  }

  /** Whitespace that the printer copies as it is; the rest it escapes. */
  predicate IsLiteralSpace(c: char) {
    IsSpace(c) && c >= ' '
  }

  function EraseText(s: string): string {
    if s == [] then [] else (if IsLiteralSpace(s[0]) then [] else [s[0]]) + EraseText(s[1..])
  }

  /** Literal whitespace removed from every string and key. */
  function Erase(v: Value): Value {
    match v
    case Str(s) => Str(EraseText(s))
    case Date(iso) => Date(EraseText(iso))
    case Arr(items) => Arr(EraseItems(items))
    case Obj(members) => Obj(EraseMembers(members))
    case _ => v
  }

  function EraseItems(items: List<Value>): List<Value> {
    match items
    case Nil => Nil
    case Cons(first, rest) => Cons(Erase(first), EraseItems(rest))
  }

  function EraseMembers(members: List<Member>): List<Member> {
    match members
    case Nil => Nil
    case Cons(m, rest) => Cons(Member(EraseText(m.key), Erase(m.value)), EraseMembers(rest))
  }

  lemma {:induction false} StripConcat(a: string, b: string)
    ensures Strip(a + b) == Strip(a) + Strip(b)
  {
    if a == [] {
      assert a + b == b;
    } else {
      assert (a + b)[1..] == a[1..] + b;
      StripConcat(a[1..], b);
      Regroup(if IsSpace(a[0]) then [] else [a[0]], Strip(a[1..]), Strip(b));
    }
  }

  /** The white space and line ends of a regular expression, character by character. */
  const WHITE_SPACE: string :=
    "\t\n\U{0B}\U{0C}\r \U{A0}\U{1680}\U{2000}\U{2001}\U{2002}\U{2003}\U{2004}\U{2005}"
    + "\U{2006}\U{2007}\U{2008}\U{2009}\U{200A}\U{2028}\U{2029}\U{202F}\U{205F}\U{3000}\U{FEFF}"

  lemma SpacesListed(c: char)
    ensures IsSpace(c) <==> c in WHITE_SPACE
  {
    assert c in WHITE_SPACE <==> exists i: nat :: i < |WHITE_SPACE| && WHITE_SPACE[i] == c;
  }

  /** Erasing takes every such character out of a text, wherever it stands, and nothing else. */
  lemma {:induction false} StripErases(a: string, c: char, b: string)
    ensures Strip(a + [c] + b) == if c in WHITE_SPACE then Strip(a + b) else Strip(a) + [c] + Strip(b)
    ensures Strip([]) == []
  {
    StripConcat(a + [c], b);
    StripConcat(a, [c]);
    StripConcat(a, b);
    assert [c][1..] == [];
    SpacesListed(c);
  }

  lemma {:induction false} StripSolid(s: string)
    requires forall c :: c in s ==> !IsSpace(c)
    ensures Strip(s) == s
  {
    if s != [] {
      assert s[0] in s;
      StripSolid(s[1..]);
      assert s == [s[0]] + s[1..];
    }
  }

  lemma {:induction false} StripEscapeChar(c: char)
    ensures Strip(EscapeChar(c)) == if IsLiteralSpace(c) then [] else EscapeChar(c)
  {
    if IsLiteralSpace(c) {
      assert [c][1..] == [];
      assert Strip([c]) == [] + Strip([]);
    } else {
      StripSolid(EscapeChar(c));
    }
  }

  lemma {:induction false} StripEscape(s: string)
    ensures Strip(Escape(s)) == Escape(EraseText(s))
  {
    if s != [] {
      StripConcat(EscapeChar(s[0]), Escape(s[1..]));
      StripEscapeChar(s[0]);
      StripEscape(s[1..]);
      if IsLiteralSpace(s[0]) {
        assert EraseText(s) == EraseText(s[1..]);
      } else {
        assert EraseText(s)[0] == s[0] && EraseText(s)[1..] == EraseText(s[1..]);
      }
    }
  }

  lemma {:induction false} StripQuote(s: string)
    ensures Strip(Quote(s)) == Quote(EraseText(s))
  {
    StripConcat("\"" + Escape(s), "\"");
    StripConcat("\"", Escape(s));
    StripEscape(s);
    StripSolid("\"");
  }

  /** Stripping the printed text is printing the stripped tree. */
  lemma {:induction false} StripPrint(v: Value)
    ensures Strip(Print(v)) == Print(Erase(v))
  {
    match v
    case Str(s) => StripQuote(s);
    case Date(iso) => StripQuote(iso);
    case Arr(items) =>
      StripConcat("[", PrintItems(items, ""));
      StripSolid("[");
      StripItems(items, "");
    case Obj(members) =>
      StripConcat("{", PrintMembers(members, ""));
      StripSolid("{");
      StripMembers(members, "");
    case _ => StripSolid(Print(v));
  }

  lemma {:induction false} StripItems(items: List<Value>, lead: string)
    requires lead == "" || lead == ","
    ensures Strip(PrintItems(items, lead)) == PrintItems(EraseItems(items), lead)
  {
    StripSolid(lead);
    match items
    case Nil => StripSolid("]");
    case Cons(first, rest) =>
      StripConcat(lead, Print(first) + PrintItems(rest, ","));
      StripConcat(Print(first), PrintItems(rest, ","));
      StripPrint(first);
      StripItems(rest, ",");
  }

  lemma {:induction false} StripMembers(members: List<Member>, lead: string)
    requires lead == "" || lead == ","
    ensures Strip(PrintMembers(members, lead)) == PrintMembers(EraseMembers(members), lead)
  {
    StripSolid(lead);
    match members
    case Nil => StripSolid("}");
    case Cons(m, rest) =>
      var tail := Print(m.value) + PrintMembers(rest, ",");
      StripConcat(lead, Quote(m.key) + (":" + tail));
      StripConcat(Quote(m.key), ":" + tail);
      StripConcat(":", tail);
      StripConcat(Print(m.value), PrintMembers(rest, ","));
      StripSolid(":");
      StripQuote(m.key);
      StripPrint(m.value);
      StripMembers(rest, ",");
  }

  // ------------------------------------------------------------ the hashed text

  /** The text handed to SHA-256; an undefined payload has none, and the source
      throws on it. */
  function HashedText(payload: Value): Option<string> {
    var normalized := Normalize(payload);
    if normalized.Undefined? then None else Some(Strip(Print(normalized)))
  }

  lemma {:induction false} SettledPrints(v: Value)
    ensures Print(Settled(v)) == Print(v)
  {
    match v
    case Arr(items) => SettledItemsPrint(items, "");
    case Obj(members) => SettledMembersPrint(members, "");
    case _ =>
  }

  lemma {:induction false} SettledItemsPrint(items: List<Value>, lead: string)
    ensures PrintItems(SettledItems(items), lead) == PrintItems(items, lead)
  {
    match items
    case Nil =>
    case Cons(first, rest) =>
      SettledPrints(first);
      SettledItemsPrint(rest, ",");
  }

  lemma {:induction false} SettledMembersPrint(members: List<Member>, lead: string)
    ensures PrintMembers(SettledMembers(members), lead) == PrintMembers(members, lead)
  {
    match members
    case Nil =>
    case Cons(m, rest) =>
      SettledPrints(m.value);
      SettledMembersPrint(rest, ",");
  }

  lemma {:induction false} ErasedIsPrintable(v: Value)
    requires Normal(v) && !v.Undefined?
    ensures Printable(Erase(Settled(v)))
  {
    match v
    case Arr(items) => ErasedItemsArePrintable(items);
    case Obj(members) => ErasedMembersArePrintable(members);
    case _ =>
  }

  lemma {:induction false} ErasedItemsArePrintable(items: List<Value>)
    requires ItemsNormal(items)
    ensures ItemsPrintable(EraseItems(SettledItems(items)))
  {
    match items
    case Nil =>
    case Cons(first, rest) =>
      if !first.Undefined? {
        ErasedIsPrintable(first);
      }
      ErasedItemsArePrintable(rest);
  }

  lemma {:induction false} ErasedMembersArePrintable(members: List<Member>)
    requires MembersNormal(members)
    ensures MembersPrintable(EraseMembers(SettledMembers(members)))
  {
    match members
    case Nil =>
    case Cons(m, rest) =>
      ErasedIsPrintable(m.value);
      ErasedMembersArePrintable(rest);
  }

  /** Two payloads hash the same text exactly when their normalised trees agree
      once literal whitespace is erased. */
  lemma {:induction false} SameTextIff(p: Value, q: Value)
    requires WellFormed(p) && WellFormed(q) && !p.Undefined? && !q.Undefined?
    ensures HashedText(p) == HashedText(q) <==>
            Erase(Settled(Normalize(p))) == Erase(Settled(Normalize(q)))
  {
    HashedTextPrints(p);
    HashedTextPrints(q);
    var v, w := Erase(Settled(Normalize(p))), Erase(Settled(Normalize(q)));
    if Print(v) == Print(w) {
      assert Print(v) + "" == Print(w) + "";
      PrintReads(v, w, "", "");
    }
  }

  lemma {:induction false} HashedTextPrints(p: Value)
    requires WellFormed(p) && !p.Undefined?
    ensures Printable(Erase(Settled(Normalize(p))))
    ensures HashedText(p) == Some(Print(Erase(Settled(Normalize(p)))))
  {
    NormalizeMeans(p);
    ErasedIsPrintable(Normalize(p));
    SettledPrints(Normalize(p));
    StripPrint(Settled(Normalize(p)));
  }

  /** A date hashes like its ISO text, an undefined item like null, and an undefined
      member like none at all. */
  lemma {:induction false} NormalizedAway(iso: string, items: List<Value>, key: string, members: List<Member>)
    ensures HashedText(Date(iso)) == HashedText(Str(iso)) == Some(Strip("\"" + Escape(iso) + "\""))
    ensures HashedText(Arr(Cons(Undefined, items))) == HashedText(Arr(Cons(Null, items)))
    ensures HashedText(Obj(Cons(Member(key, Undefined), members))) == HashedText(Obj(members))
    ensures HashedText(Undefined) == None
  {
    assert Normalize(Date(iso)) == Normalize(Str(iso)) == Str(iso);
    assert NormalizeMembers(Cons(Member(key, Undefined), members)) == NormalizeMembers(members);
    assert PrintItems(NormalizeItems(Cons(Undefined, items)), "") == PrintItems(NormalizeItems(Cons(Null, items)), "");
  }

  /** Equal meanings always hash the same text. */
  lemma {:induction false} MeaningDecidesText(p: Value, q: Value)
    requires WellFormed(p) && WellFormed(q) && !p.Undefined? && !q.Undefined? && Mean(p) == Mean(q)
    ensures HashedText(p) == HashedText(q)
  {
    NormalizeDecidesMeaning(p, q);
    SameTextIff(p, q);
  }

  /** The hashed text is JSON for the normalised payload, with literal whitespace gone
      from its strings and keys. */
  lemma {:induction false} HashedTextReadsBack(p: Value)
    requires WellFormed(p) && !p.Undefined?
    ensures HashedText(p).Some?
    ensures ReadValue(HashedText(p).value) == Some((Erase(Settled(Normalize(p))), ""))
  {
    HashedTextPrints(p);
    var v := Erase(Settled(Normalize(p)));
    PrintReadsBack(v, "");
    assert Print(v) + "" == Print(v);
  }

  // ------------------------------------------------- when the text is faithful

  predicate Solid(s: string) {
    forall c :: c in s ==> !IsLiteralSpace(c)
  }

  /** No string or key holds whitespace that the printer would copy. */
  predicate NoLiteralSpace(v: Value) {
    match v
    case Str(s) => Solid(s)
    case Date(iso) => Solid(iso)
    case Arr(items) => ItemsSolid(items)
    case Obj(members) => MembersSolid(members)
    case _ => true
  }

  predicate ItemsSolid(items: List<Value>) {
    match items
    case Nil => true
    case Cons(first, rest) => NoLiteralSpace(first) && ItemsSolid(rest)
  }

  predicate MembersSolid(members: List<Member>) {
    match members
    case Nil => true
    case Cons(m, rest) => Solid(m.key) && NoLiteralSpace(m.value) && MembersSolid(rest)
  }

  lemma {:induction false} EraseSolid(s: string)
    requires Solid(s)
    ensures EraseText(s) == s
  {
    if s != [] {
      assert s[0] in s;
      EraseSolid(s[1..]);
      assert s == [s[0]] + s[1..];
    }
  }

  lemma {:induction false} InsertSolid(m: Member, members: List<Member>)
    requires Solid(m.key) && NoLiteralSpace(m.value) && MembersSolid(members)
    ensures MembersSolid(Insert(m, members))
  {
    match members
    case Nil =>
    case Cons(_, rest) => InsertSolid(m, rest);
  }

  lemma {:induction false} SolidStays(v: Value)
    requires NoLiteralSpace(v)
    ensures NoLiteralSpace(Normalize(v)) && Erase(Settled(v)) == Settled(v)
  {
    match v
    case Str(s) => EraseSolid(s);
    case Date(iso) => EraseSolid(iso);
    case Arr(items) => SolidItemsStay(items);
    case Obj(members) => SolidMembersStay(members);
    case _ =>
  }

  lemma {:induction false} SolidItemsStay(items: List<Value>)
    requires ItemsSolid(items)
    ensures ItemsSolid(NormalizeItems(items)) && EraseItems(SettledItems(items)) == SettledItems(items)
  {
    match items
    case Nil =>
    case Cons(first, rest) =>
      SolidStays(first);
      SolidItemsStay(rest);
  }

  lemma {:induction false} SolidMembersStay(members: List<Member>)
    requires MembersSolid(members)
    ensures MembersSolid(NormalizeMembers(members)) && EraseMembers(SettledMembers(members)) == SettledMembers(members)
  {
    match members
    case Nil =>
    case Cons(m, rest) =>
      SolidStays(m.value);
      SolidMembersStay(rest);
      EraseSolid(m.key);
      if !m.value.Undefined? {
        InsertSolid(Member(m.key, Normalize(m.value)), NormalizeMembers(rest));
      }
  }

  /** Among payloads without literal whitespace the text decides the meaning, so
      nothing but the erasure can make two different payloads collide. */
  lemma {:induction false} TextDecidesMeaning(p: Value, q: Value)
    requires WellFormed(p) && WellFormed(q) && !p.Undefined? && !q.Undefined?
    requires NoLiteralSpace(p) && NoLiteralSpace(q)
    ensures HashedText(p) == HashedText(q) <==> Mean(p) == Mean(q)
  {
    SolidStays(p);
    SolidStays(q);
    SolidStays(Normalize(p));
    SolidStays(Normalize(q));
    SameTextIff(p, q);
    NormalizeDecidesMeaning(p, q);
  }

  /** Without literal whitespace the hashed text, read as JSON, means what the payload means. */
  lemma {:induction false} HashedTextMeans(p: Value)
    requires WellFormed(p) && !p.Undefined? && NoLiteralSpace(p)
    ensures HashedText(p).Some? && ReadValue(HashedText(p).value).Some?
    ensures var (read, rest) := ReadValue(HashedText(p).value).value; Mean(read) == Mean(p) && rest == ""
  {
    HashedTextReadsBack(p);
    SolidStays(p);
    SolidStays(Normalize(p));
    NormalizeMeans(p);
    SettledMeans(Normalize(p));
  }

  lemma {:induction false} ErasedIsSolid(s: string)
    ensures Solid(EraseText(s))
  {
    if s != [] {
      ErasedIsSolid(s[1..]);
    }
  }

  /** With it they can: a string hashes like its erasure, which is another
      string as soon as there is something to erase. */
  lemma {:induction false} WhitespaceCollides(s: string)
    requires !Solid(s)
    ensures HashedText(Str(s)) == HashedText(Str(EraseText(s))) && Mean(Str(s)) != Mean(Str(EraseText(s)))
  {
    ErasedIsSolid(s);
    EraseSolid(EraseText(s));
    SameTextIff(Str(s), Str(EraseText(s)));
  }

  // -------------------------------------------------------- the canonical payload

  /** The payload hashed for every shipment event, with the members in the order written. */
  function ShipmentPayload(shipmentId: string, event: string, actor: Option<string>, timestamp: string,
                           metadata: Value): Value {
    Obj(Cons(Member("actor", if actor.None? then Null else Str(actor.value)),
        Cons(Member("event", Str(event)),
        Cons(Member("metadata", metadata),
        Cons(Member("shipmentId", Str(shipmentId)),
        Cons(Member("timestamp", Str(timestamp)),
        Cons(Member("v", Num(1)), Nil)))))))
  }

  lemma {:induction false} NormalizeFirst(m: Member, rest: List<Member>)
    requires !m.value.Undefined?
    requires var sorted := NormalizeMembers(rest); sorted.Nil? || Before(m.key, sorted.head.key)
    ensures NormalizeMembers(Cons(m, rest)) == Cons(Member(m.key, Normalize(m.value)), NormalizeMembers(rest))
  {
    var sorted := NormalizeMembers(rest);
    if sorted.Cons? && Before(sorted.head.key, m.key) {
      BeforeTransitive(m.key, sorted.head.key, m.key);
      BeforeIrreflexive(m.key);
    }
  }

  /** Its members are in key order already. */
  lemma {:induction false} ShipmentPayloadIsSorted(id: string, event: string, actor: Option<string>,
                                                   timestamp: string, metadata: Value)
    requires !metadata.Undefined?
    ensures Normalize(ShipmentPayload(id, event, actor, timestamp, metadata)) ==
            ShipmentPayload(id, event, actor, timestamp, Normalize(metadata))
  {
    var ofV := Cons(Member("v", Num(1)), Nil);
    var ofTimestamp := Cons(Member("timestamp", Str(timestamp)), ofV);
    var ofId := Cons(Member("shipmentId", Str(id)), ofTimestamp);
    var ofMetadata := Cons(Member("metadata", metadata), ofId);
    var ofEvent := Cons(Member("event", Str(event)), ofMetadata);
    NormalizeFirst(ofV.head, Nil);
    NormalizeFirst(ofTimestamp.head, ofV);
    NormalizeFirst(ofId.head, ofTimestamp);
    NormalizeFirst(ofMetadata.head, ofId);
    NormalizeFirst(ofEvent.head, ofMetadata);
    NormalizeFirst(Member("actor", if actor.None? then Null else Str(actor.value)), ofEvent);
  }

  lemma {:induction false} FirstKeyDiffers(m: Member, rest: List<Member>)
    requires rest.Cons? && AllAfter(rest.head.key, rest.tail) && Before(m.key, rest.head.key)
    ensures AllAfter(m.key, rest) && !HasKey(rest, m.key)
  {
    AllAfterWeaken(m.key, rest.head.key, rest.tail);
    AfterDiffers(m.key, rest);
  }

  lemma {:induction false} AfterDiffers(key: string, members: List<Member>)
    requires AllAfter(key, members)
    ensures !HasKey(members, key)
  {
    match members
    case Nil =>
    case Cons(m, rest) =>
      BeforeIrreflexive(key);
      AfterDiffers(key, rest);
  }

  lemma {:induction false} ShipmentPayloadIsWellFormed(id: string, event: string, actor: Option<string>,
                                                       timestamp: string, metadata: Value)
    requires WellFormed(metadata)
    ensures WellFormed(ShipmentPayload(id, event, actor, timestamp, metadata))
  {
    var ofV := Cons(Member("v", Num(1)), Nil);
    var ofTimestamp := Cons(Member("timestamp", Str(timestamp)), ofV);
    var ofId := Cons(Member("shipmentId", Str(id)), ofTimestamp);
    var ofMetadata := Cons(Member("metadata", metadata), ofId);
    var ofEvent := Cons(Member("event", Str(event)), ofMetadata);
    FirstKeyDiffers(ofTimestamp.head, ofV);
    FirstKeyDiffers(ofId.head, ofTimestamp);
    FirstKeyDiffers(ofMetadata.head, ofId);
    FirstKeyDiffers(ofEvent.head, ofMetadata);
    FirstKeyDiffers(Member("actor", Null), ofEvent);
    assert MembersWellFormed(ofV) && MembersWellFormed(ofTimestamp) && MembersWellFormed(ofId);
    assert MembersWellFormed(ofMetadata) && MembersWellFormed(ofEvent);
  }

  /** Its hashed text, read back: the six members in this order, but for literal whitespace. */
  lemma {:induction false} ShipmentTextReads(id: string, event: string, actor: Option<string>, timestamp: string,
                                             metadata: Value)
    requires WellFormed(metadata) && !metadata.Undefined?
    ensures var text := HashedText(ShipmentPayload(id, event, actor, timestamp, metadata));
      text.Some? && ReadValue(text.value) ==
        Some((Erase(Settled(ShipmentPayload(id, event, actor, timestamp, Normalize(metadata)))), ""))
  {
    ShipmentPayloadIsWellFormed(id, event, actor, timestamp, metadata);
    ShipmentPayloadIsSorted(id, event, actor, timestamp, metadata);
    HashedTextReadsBack(ShipmentPayload(id, event, actor, timestamp, metadata));
  }

  // --------------------------------------------------- the loop over sorted keys

  function SortMembers(members: List<Member>): List<Member> {
    match members
    case Nil => Nil
    case Cons(m, rest) => Insert(m, SortMembers(rest))
  }

  predicate Sorted(members: List<Member>) {
    match members
    case Nil => true
    case Cons(m, rest) => AllAfter(m.key, rest) && Sorted(rest)
  }

  /** What the loop makes of members already in key order. */
  function NormalizeEach(members: List<Member>): List<Member> {
    match members
    case Nil => Nil
    case Cons(m, rest) =>
      if m.value.Undefined? then NormalizeEach(rest)
      else Cons(Member(m.key, Normalize(m.value)), NormalizeEach(rest))
  }

  lemma {:induction false} InsertSorts(m: Member, members: List<Member>)
    requires Sorted(members) && !HasKey(members, m.key)
    ensures Sorted(Insert(m, members))
    ensures forall key :: HasKey(Insert(m, members), key) <==> key == m.key || HasKey(members, key)
  {
    match members
    case Nil =>
    case Cons(first, rest) =>
      BeforeTotal(first.key, m.key);
      if Before(first.key, m.key) {
        InsertSorts(m, rest);
        InsertAfter(first.key, m, rest);
      } else {
        AllAfterWeaken(m.key, first.key, rest);
      }
  }

  lemma {:induction false} EachAfter(key: string, members: List<Member>)
    requires AllAfter(key, members)
    ensures AllAfter(key, NormalizeEach(members))
  {
    match members
    case Nil =>
    case Cons(_, rest) => EachAfter(key, rest);
  }

  lemma {:induction false} InsertFront(m: Member, members: List<Member>)
    requires AllAfter(m.key, members)
    ensures Insert(m, members) == Cons(m, members)
  {
    if members.Cons? && Before(members.head.key, m.key) {
      BeforeTransitive(m.key, members.head.key, m.key);
      BeforeIrreflexive(m.key);
    }
  }

  lemma {:induction false} EachInserts(m: Member, members: List<Member>)
    requires Sorted(members) && !HasKey(members, m.key)
    ensures NormalizeEach(Insert(m, members)) ==
            if m.value.Undefined? then NormalizeEach(members)
            else Insert(Member(m.key, Normalize(m.value)), NormalizeEach(members))
  {
    match members
    case Nil =>
    case Cons(first, rest) =>
      BeforeTotal(first.key, m.key);
      if Before(first.key, m.key) {
        EachInserts(m, rest);
      } else {
        AllAfterWeaken(m.key, first.key, rest);
        EachAfter(m.key, members);
        InsertFront(Member(m.key, Normalize(m.value)), NormalizeEach(members));
      }
  }

  lemma {:induction false} SortThenNormalize(members: List<Member>)
    requires MembersWellFormed(members)
    ensures Sorted(SortMembers(members)) && NormalizeEach(SortMembers(members)) == NormalizeMembers(members)
    ensures forall key :: HasKey(SortMembers(members), key) <==> HasKey(members, key)
  {
    match members
    case Nil =>
    case Cons(m, rest) =>
      SortThenNormalize(rest);
      InsertSorts(m, SortMembers(rest));
      EachInserts(m, SortMembers(rest));
  }

  function Size(v: Value): (n: nat)
    ensures n > 0
  {
    match v
    case Arr(items) => 1 + ItemsSize(items)
    case Obj(members) => 1 + MembersSize(members)
    case _ => 1
  }

  function ItemsSize(items: List<Value>): nat {
    match items
    case Nil => 0
    case Cons(first, rest) => Size(first) + ItemsSize(rest)
  }

  function MembersSize(members: List<Member>): nat {
    match members
    case Nil => 0
    case Cons(m, rest) => Size(m.value) + MembersSize(rest)
  }

  lemma {:induction false} InsertKeeps(m: Member, members: List<Member>)
    ensures MembersSize(Insert(m, members)) == Size(m.value) + MembersSize(members)
    ensures WellFormed(m.value) && ValuesWellFormed(members) ==> ValuesWellFormed(Insert(m, members))
  {
    match members
    case Nil =>
    case Cons(_, rest) => InsertKeeps(m, rest);
  }

  predicate ValuesWellFormed(members: List<Member>) {
    match members
    case Nil => true
    case Cons(m, rest) => WellFormed(m.value) && ValuesWellFormed(rest)
  }

  lemma {:induction false} SortKeeps(members: List<Member>)
    requires MembersWellFormed(members)
    ensures MembersSize(SortMembers(members)) == MembersSize(members) && ValuesWellFormed(SortMembers(members))
  {
    match members
    case Nil =>
    case Cons(m, rest) =>
      SortKeeps(rest);
      InsertKeeps(m, SortMembers(rest));
  }

  function Append(a: List<Member>, b: List<Member>): List<Member> {
    match a
    case Nil => b
    case Cons(m, rest) => Cons(m, Append(rest, b))
  }

  lemma {:induction false} AppendOne(a: List<Member>, m: Member, b: List<Member>)
    ensures Append(Append(a, Cons(m, Nil)), b) == Append(a, Cons(m, b)) && Append(a, Nil) == a
  {
    match a
    case Nil =>
    case Cons(_, rest) => AppendOne(rest, m, b);
  }

  /** The source's recursion: an object's keys are sorted and a fresh record is
      filled in that order, skipping undefined members. */
  method NormalizeForDeterministicJson(value: Value) returns (normalized: Value)
    requires WellFormed(value)
    ensures normalized == Normalize(value)
    decreases Size(value), 1
  {
    match value
    case Date(iso) => normalized := Str(iso);
    case Arr(items) =>
      var mapped := NormalizeArray(items);
      normalized := Arr(mapped);
    case Obj(members) =>
      SortThenNormalize(members);
      SortKeeps(members);
      var remaining, filled := SortMembers(members), Nil;
      while remaining.Cons?
        invariant Append(filled, NormalizeEach(remaining)) == NormalizeMembers(members)
        invariant ValuesWellFormed(remaining) && MembersSize(remaining) < Size(value)
        decreases remaining
      {
        var m := remaining.head;
        remaining := remaining.tail;
        if !m.value.Undefined? {
          var v := NormalizeForDeterministicJson(m.value);
          AppendOne(filled, Member(m.key, v), NormalizeEach(remaining));
          filled := Append(filled, Cons(Member(m.key, v), Nil));
        }
      }
      AppendOne(filled, Member("", Null), Nil);
      normalized := Obj(filled);
    case _ => normalized := value;
  }

  method NormalizeArray(items: List<Value>) returns (mapped: List<Value>)
    requires ItemsWellFormed(items)
    ensures mapped == NormalizeItems(items)
    decreases ItemsSize(items), 2
  {
    match items
    case Nil => mapped := Nil;
    case Cons(first, rest) =>
      var v := NormalizeForDeterministicJson(first);
      var others := NormalizeArray(rest);
      mapped := Cons(v, others);
  }
}
