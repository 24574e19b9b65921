/**
  Token refresh and logout of src/modules/auth/auth.service.ts over the blocklist
  of src/infra/redis/tokenBlocklist.ts, with the check of
  src/shared/middleware/requireAuth.ts. The clock counts milliseconds, token
  times are whole seconds, and the blocklist is the lazily expiring Redis store.
 */
module AuthTokens {
  import opened Common
  import opened MemoryRedis

  const TOKEN_TTL_SECONDS := 7 * 24 * 60 * 60
  const GRACE_SECONDS := 7 * 24 * 60 * 60
  const BLOCKLIST_PREFIX := "blocklist:uuid:"

  type Jti = string

  /** A token whose signature is good; the claims that decide its fate. */
  datatype Token = Token(jti: Jti, iat: int, exp: int)

  function Issue(jti: Jti, now: int): Token {
    Token(jti, now / 1000, now / 1000 + TOKEN_TTL_SECONDS)
  }

  // --------------------------------------------------------------- identifiers

  predicate IsHex(c: char) {
    '0' <= c <= '9' || 'a' <= c <= 'f' || 'A' <= c <= 'F'
  }

  /** Hexadecimal digits and dashes in their places from index `i` on. */
  predicate UuidFrom(s: string, i: nat)
    decreases |s| - i
  {
    i < |s| ==> (if i == 8 || i == 13 || i == 18 || i == 23 then s[i] == '-' else IsHex(s[i])) && UuidFrom(s, i + 1)
  }

  /** The text form of a version 4 UUID, in either case. */
  predicate IsValidJti(jti: Jti) {
    |jti| == 36 && UuidFrom(jti, 0) && jti[14] == '4' && jti[19] in {'8', '9', 'a', 'b', 'A', 'B'}
  }

  function LowerChar(c: char): char {
    if 'A' <= c <= 'Z' then c + 32 as char else c
  }

  function ToLower(s: string): string {
    seq(|s|, i requires 0 <= i < |s| => LowerChar(s[i]))
  }

  /** What the service generates: valid and in lower case. */
  predicate Generated(jti: Jti) {
    IsValidJti(jti) && ToLower(jti) == jti
  }

  function BlockKey(jti: Jti): Key {
    BLOCKLIST_PREFIX + ToLower(jti)
  }

  lemma BlockKeysDiffer(a: Jti, b: Jti)
    requires Generated(a) && Generated(b)
    ensures BlockKey(a) == BlockKey(b) <==> a == b
  {
    PrefixInjective(BLOCKLIST_PREFIX, a, b);
  }

  /** The pattern of the source, place by place. */
  lemma ValidJtiIff(jti: Jti)
    ensures IsValidJti(jti) <==>
      && |jti| == 36
      && jti[8] == '-' && jti[13] == '-' && jti[18] == '-' && jti[23] == '-'
      && jti[14] == '4' && jti[19] in "89abAB"
      && forall i :: 0 <= i < 36 && i != 8 && i != 13 && i != 18 && i != 23 ==> jti[i] in "0123456789abcdefABCDEF"
  {
    if |jti| == 36 {
      UuidFromIff(jti, 0);
      forall c: char ensures IsHex(c) <==> c in "0123456789abcdefABCDEF" {
      }
    }
  }

  lemma {:induction false} UuidFromIff(s: string, i: nat)
    ensures UuidFrom(s, i) <==>
      forall j :: i <= j < |s| ==> if j == 8 || j == 13 || j == 18 || j == 23 then s[j] == '-' else IsHex(s[j])
    decreases |s| - i
  {
    if i < |s| {
      UuidFromIff(s, i + 1);
    }
  }

  /** The key is the prefix and the id, its hexadecimal digits in lower case. */
  lemma BlockKeyText(jti: Jti)
    requires IsValidJti(jti)
    ensures |BlockKey(jti)| == 51 && BlockKey(jti)[..15] == "blocklist:uuid:"
    ensures forall i :: 0 <= i < 36 ==>
      var c, d := jti[i], BlockKey(jti)[15 + i];
      if c in "0123456789-abcdef" then d == c
      else exists k :: 0 <= k < 6 && "ABCDEF"[k] == c && "abcdef"[k] == d
    ensures Generated(jti) ==> BlockKey(jti) == "blocklist:uuid:" + jti
  {
    UuidFromIff(jti, 0);
    assert |BLOCKLIST_PREFIX| == 15;
    forall i | 0 <= i < 36
      ensures var c, d := jti[i], BlockKey(jti)[15 + i];
        if c in "0123456789-abcdef" then d == c
        else exists k :: 0 <= k < 6 && "ABCDEF"[k] == c && "abcdef"[k] == d
    {
      LowerHex(jti[i]);
    }
  }

  lemma LowerHex(c: char)
    requires c == '-' || IsHex(c)
    ensures if c in "0123456789-abcdef" then LowerChar(c) == c
            else exists k :: 0 <= k < 6 && "ABCDEF"[k] == c && "abcdef"[k] == LowerChar(c)
  {
    if 'A' <= c <= 'F' {
      var k := c as int - 'A' as int;
      assert "ABCDEF"[k] == c && "abcdef"[k] == LowerChar(c);
    }
  }

  // ----------------------------------------------------------------- blocklist

  function BlockToken(s: Strings, jti: Jti, ttlSeconds: int, now: int): Strings {
    if ttlSeconds <= 0 then s
    else LazyStep(s, Set(BlockKey(jti), Decimal(1), [Word("EX"), Number(ttlSeconds)]), now).strings
  }

  /** A lookup may sweep the entry it finds overdue; an id that is no UUID is not
      looked up. */
  function Looked(s: Strings, jti: Jti, now: int): Strings {
    if IsValidJti(jti) then LazyStep(s, Get(BlockKey(jti)), now).strings else s
  }

  predicate IsTokenBlocked(s: Strings, jti: Jti, now: int) {
    IsValidJti(jti) && LazyStep(s, Get(BlockKey(jti)), now).reply != Nil
  }

  lemma BlockSets(s: Strings, jti: Jti, ttlSeconds: int, now: int)
    requires ttlSeconds > 0
    ensures BlockToken(s, jti, ttlSeconds, now) == s[BlockKey(jti) := Entry(Decimal(1), Some(now + ttlSeconds * 1000))]
  {
    var args := [Word("EX"), Number(ttlSeconds)];
    assert ExpiryOf(args, 2, now) == ExpiryOf(args, 1, now) == Some(now + ttlSeconds * 1000);
  }

  /** Blocked is an id whose key is held by an entry that is not overdue. */
  lemma BlockedIff(s: Strings, jti: Jti, now: int)
    requires Generated(jti)
    ensures var key := "blocklist:uuid:" + jti;
      IsTokenBlocked(s, jti, now) <==> key in s && (s[key].expireAt.None? || now < s[key].expireAt.value)
  {
    BlockKeyText(jti);
  }

  // ------------------------------------------------------- what a token is good for

  /** The check on every protected route. */
  predicate Accepted(s: Strings, token: Token, now: int) {
    now / 1000 < token.exp && !IsTokenBlocked(s, token.jti, now)
  }

  /** What refresh asks of a token, whether it has expired or not. */
  predicate Refreshable(s: Strings, token: Token, now: int) {
    !IsTokenBlocked(s, token.jti, now) && now / 1000 - token.iat <= GRACE_SECONDS
  }

  predicate Usable(s: Strings, token: Token, now: int) {
    Accepted(s, token, now) || Refreshable(s, token, now)
  }

  // ------------------------------------------------------------------ the steps

  /** `issued` holds every token by its id, `login` the id of the login token it
      descends from, and `newest` the last token of each login. */
  datatype Book = Book(issued: map<Jti, Token>, login: map<Jti, Jti>, newest: map<Jti, Jti>)

  datatype Auth = Auth(strings: Strings, book: Book)

  datatype Action =
    | Login(jti: Jti)
    | Authenticate(jti: Jti)
    | Refresh(jti: Jti, newJti: Jti, userExists: bool)
    | Logout(jti: Jti)
    | Foreign(command: Command)

  function Add(book: Book, token: Token, root: Jti): Book {
    Book(book.issued[token.jti := token], book.login[token.jti := root], book.newest[root := token.jti])
  }

  function RequireAuth(s: Strings, token: Token, now: int): Strings {
    if now / 1000 < token.exp then Looked(s, token.jti, now) else s
  }

  function RefreshTtl(token: Token, now: int): int {
    var oldTtl := token.exp - now / 1000;
    if oldTtl > 0 then oldTtl + GRACE_SECONDS else GRACE_SECONDS
  }

  function Refreshed(s: Strings, token: Token, now: int): Strings {
    BlockToken(Looked(s, token.jti, now), token.jti, RefreshTtl(token, now), now)
  }

  function LoggedOut(s: Strings, token: Token, now: int): Strings {
    BlockToken(s, token.jti, token.exp - now / 1000, now)
  }

  /** The logout route: the check first, then the block. */
  function AfterLogout(s: Strings, token: Token, now: int): Strings {
    var t := RequireAuth(s, token, now);
    if Accepted(s, token, now) then LoggedOut(t, token, now) else t
  }

  /** A presented token is a genuine one, a new token id is fresh, and other code
      keeps off the blocklist keys. */
  predicate Proper(book: Book, action: Action) {
    match action
    case Login(jti) => Generated(jti) && jti !in book.issued
    case Authenticate(jti) => jti in book.issued
    case Refresh(jti, newJti, _) =>
      jti in book.issued && jti in book.login && Generated(newJti) && newJti !in book.issued
    case Logout(jti) => jti in book.issued
    case Foreign(c) => forall key <- KeysOf(c) :: !(BLOCKLIST_PREFIX <= key)
  }

  predicate HandsOver(a: Auth, action: Action, now: int)
    requires Proper(a.book, action)
  {
    action.Refresh? && action.userExists && Refreshable(a.strings, a.book.issued[action.jti], now)
  }

  function StepStrings(a: Auth, action: Action, now: int): Strings
    requires Proper(a.book, action)
  {
    match action
    case Login(_) => a.strings
    case Authenticate(jti) => RequireAuth(a.strings, a.book.issued[jti], now)
    case Refresh(jti, _, _) =>
      if HandsOver(a, action, now) then Refreshed(a.strings, a.book.issued[jti], now) else Looked(a.strings, jti, now)
    case Logout(jti) => AfterLogout(a.strings, a.book.issued[jti], now)
    case Foreign(c) => LazyStep(a.strings, c, now).strings
  }

  function StepBook(a: Auth, action: Action, now: int): Book
    requires Proper(a.book, action)
  {
    if action.Login? then Add(a.book, Issue(action.jti, now), action.jti)
    else if HandsOver(a, action, now) then Add(a.book, Issue(action.newJti, now), a.book.login[action.jti])
    else a.book
  }

  function Step(a: Auth, action: Action, now: int): Auth
    requires Proper(a.book, action)
  {
    Auth(StepStrings(a, action, now), StepBook(a, action, now))
  }

  // -------------------------------------------------------- superseded tokens

  predicate WiredAt(book: Book, jti: Jti)
    requires jti in book.issued
  {
    && Generated(jti)
    && book.issued[jti].jti == jti
    && book.issued[jti].exp == book.issued[jti].iat + TOKEN_TTL_SECONDS
    && jti in book.login
    && book.login[jti] in book.issued
    && book.login[jti] in book.newest
  }

  predicate Wired(book: Book) {
    forall jti <- book.issued :: WiredAt(book, jti)
  }

  predicate Superseded(book: Book, jti: Jti) {
    jti in book.login && book.login[jti] in book.newest && book.newest[book.login[jti]] != jti
  }

  lemma AddKeepsWiredAt(book: Book, token: Token, root: Jti, jti: Jti)
    requires Generated(token.jti) && token.exp == token.iat + TOKEN_TTL_SECONDS
    requires root == token.jti || root in book.issued
    requires jti == token.jti || (jti in book.issued && WiredAt(book, jti))
    ensures WiredAt(Add(book, token, root), jti)
  {
  }

  lemma AddKeepsWired(book: Book, token: Token, root: Jti)
    requires Wired(book) && Generated(token.jti) && token.exp == token.iat + TOKEN_TTL_SECONDS
    requires root == token.jti || root in book.issued
    ensures Wired(Add(book, token, root))
  {
    forall jti | jti in Add(book, token, root).issued
      ensures WiredAt(Add(book, token, root), jti)
    {
      AddKeepsWiredAt(book, token, root, jti);
    }
  }

  /** A new token supersedes just the one that was the newest of its login. */
  lemma AddSupersedes(book: Book, token: Token, root: Jti, jti: Jti)
    requires Wired(book) && token.jti !in book.issued && jti in Add(book, token, root).issued
    requires root == token.jti || root in book.issued
    ensures Superseded(Add(book, token, root), jti) ==>
              jti in book.issued && (Superseded(book, jti) || (book.login[jti] == root && book.newest[root] == jti))
  {
    if jti in book.issued {
      assert WiredAt(book, jti);
    }
  }

  // ----------------------------------------------------------- blocked tokens

  /** Blocked, unless `end` has come. */
  predicate BlockedUntil(s: Strings, jti: Jti, end: int, now: int) {
    var key := BlockKey(jti);
    now >= end || (key in s && (s[key].expireAt.None? || s[key].expireAt.value >= end))
  }

  /** While it is looked up as free, the end has come. */
  lemma FreeMeansOver(s: Strings, jti: Jti, end: int, now: int)
    requires IsValidJti(jti) && BlockedUntil(s, jti, end, now) && !IsTokenBlocked(s, jti, now)
    ensures now >= end
  {
  }

  lemma LookKeepsBlock(s: Strings, other: Jti, jti: Jti, end: int, now: int)
    requires BlockedUntil(s, jti, end, now)
    ensures BlockedUntil(Looked(s, other, now), jti, end, now)
  {
  }

  lemma BlockSparesOthers(s: Strings, other: Jti, ttl: int, jti: Jti, end: int, now: int)
    requires Generated(other) && Generated(jti) && other != jti && BlockedUntil(s, jti, end, now)
    ensures BlockedUntil(BlockToken(s, other, ttl, now), jti, end, now)
  {
    BlockKeysDiffer(other, jti);
    if ttl > 0 {
      BlockSets(s, other, ttl, now);
    }
  }

  lemma ForeignKeepsBlock(s: Strings, c: Command, jti: Jti, end: int, now: int)
    requires forall key <- KeysOf(c) :: !(BLOCKLIST_PREFIX <= key)
    requires BlockedUntil(s, jti, end, now)
    ensures BlockedUntil(LazyStep(s, c, now).strings, jti, end, now)
  {
    assert BLOCKLIST_PREFIX <= BlockKey(jti);
    StepSpares(s, c, BlockKey(jti), now);
  }

  lemma LogoutKeepsBlock(s: Strings, token: Token, jti: Jti, end: int, now: int)
    requires Generated(token.jti) && Generated(jti) && BlockedUntil(s, jti, end, now)
    ensures BlockedUntil(AfterLogout(s, token, now), jti, end, now)
  {
    LookKeepsBlock(s, token.jti, jti, end, now);
    if token.jti != jti {
      BlockSparesOthers(RequireAuth(s, token, now), token.jti, token.exp - now / 1000, jti, end, now);
    } else if Accepted(s, token, now) {
      FreeMeansOver(s, jti, end, now);
    }
  }

  lemma RefreshKeepsBlock(s: Strings, token: Token, jti: Jti, end: int, now: int)
    requires Generated(token.jti) && Generated(jti) && BlockedUntil(s, jti, end, now)
    requires Refreshable(s, token, now)
    ensures BlockedUntil(Refreshed(s, token, now), jti, end, now)
  {
    LookKeepsBlock(s, token.jti, jti, end, now);
    if token.jti != jti {
      BlockSparesOthers(Looked(s, token.jti, now), token.jti, RefreshTtl(token, now), jti, end, now);
    } else {
      FreeMeansOver(s, jti, end, now);
    }
  }

  /** No step lifts a block early, although overdue entries are swept and entries
      overwritten. */
  lemma StepKeepsBlock(a: Auth, action: Action, jti: Jti, end: int, now: int)
    requires Wired(a.book) && Proper(a.book, action) && Generated(jti)
    requires BlockedUntil(a.strings, jti, end, now)
    ensures BlockedUntil(StepStrings(a, action, now), jti, end, now)
  {
    match action
    case Login(_) =>
    case Authenticate(other) => LookKeepsBlock(a.strings, a.book.issued[other].jti, jti, end, now);
    case Foreign(c) => ForeignKeepsBlock(a.strings, c, jti, end, now);
    case Logout(other) =>
      assert WiredAt(a.book, other);
      LogoutKeepsBlock(a.strings, a.book.issued[other], jti, end, now);
    case Refresh(other, _, _) =>
      assert WiredAt(a.book, other);
      if HandsOver(a, action, now) {
        RefreshKeepsBlock(a.strings, a.book.issued[other], jti, end, now);
      } else {
        LookKeepsBlock(a.strings, other, jti, end, now);
      }
  }

  // ----------------------------------------------------------- doomed tokens

  /** From this instant on the token is refused by the check and by refresh
      without any blocklist. */
  function Death(token: Token): int {
    if token.exp > token.iat + GRACE_SECONDS then token.exp * 1000 else (token.iat + GRACE_SECONDS + 1) * 1000
  }

  /** Blocked until it is dead anyway. */
  predicate Doomed(s: Strings, token: Token, now: int) {
    BlockedUntil(s, token.jti, Death(token), now)
  }

  lemma DoomedIsUseless(s: Strings, token: Token, now: int, later: int)
    requires IsValidJti(token.jti) && Doomed(s, token, now) && now <= later
    ensures !Usable(s, token, later)
  {
  }

  /** The block that refresh sets outlasts the old token and its grace. */
  lemma RefreshDooms(s: Strings, token: Token, now: int)
    requires token.exp == token.iat + TOKEN_TTL_SECONDS && Refreshable(s, token, now)
    ensures Doomed(Refreshed(s, token, now), token, now)
  {
    BlockSets(Looked(s, token.jti, now), token.jti, RefreshTtl(token, now), now);
    assert now / 1000 * 1000 <= now;
  }

  /** No step revives a doomed token. */
  lemma StepKeepsDoom(a: Auth, action: Action, now: int, jti: Jti)
    requires Wired(a.book) && Proper(a.book, action) && jti in a.book.issued
    requires Doomed(a.strings, a.book.issued[jti], now)
    ensures Doomed(StepStrings(a, action, now), a.book.issued[jti], now)
  {
    assert WiredAt(a.book, jti);
    StepKeepsBlock(a, action, jti, Death(a.book.issued[jti]), now);
  }

  // -------------------------------------------------------------- the invariant

  predicate SafeAt(a: Auth, jti: Jti, now: int) {
    jti in a.book.issued && Superseded(a.book, jti) ==> Doomed(a.strings, a.book.issued[jti], now)
  }

  /** Every superseded token is doomed. */
  ghost predicate Inv(a: Auth, now: int) {
    Wired(a.book) && forall jti :: SafeAt(a, jti, now)
  }

  lemma InvLasts(a: Auth, now: int, later: int)
    requires Inv(a, now) && now <= later
    ensures Inv(a, later)
  {
    forall jti
      ensures SafeAt(a, jti, later)
    {
      assert SafeAt(a, jti, now);
    }
  }

  /** Only the newest token of a login is good for anything. */
  lemma UsableIsNewest(a: Auth, jti: Jti, now: int)
    requires Inv(a, now) && jti in a.book.issued && Usable(a.strings, a.book.issued[jti], now)
    ensures jti in a.book.login && a.book.login[jti] in a.book.newest && a.book.newest[a.book.login[jti]] == jti
  {
    assert WiredAt(a.book, jti) && SafeAt(a, jti, now);
    if Superseded(a.book, jti) {
      DoomedIsUseless(a.strings, a.book.issued[jti], now, now);
    }
  }

  lemma StepKeepsWired(a: Auth, action: Action, now: int)
    requires Wired(a.book) && Proper(a.book, action)
    ensures Wired(StepBook(a, action, now))
  {
    if action.Login? {
      AddKeepsWired(a.book, Issue(action.jti, now), action.jti);
    } else if HandsOver(a, action, now) {
      assert WiredAt(a.book, action.jti);
      AddKeepsWired(a.book, Issue(action.newJti, now), a.book.login[action.jti]);
    }
  }

  /** What a step supersedes was superseded before, or is what refresh hands over. */
  lemma StepSupersedes(a: Auth, action: Action, now: int, jti: Jti)
    requires Inv(a, now) && Proper(a.book, action) && jti in StepBook(a, action, now).issued
    requires Superseded(StepBook(a, action, now), jti)
    ensures jti in a.book.issued && StepBook(a, action, now).issued[jti] == a.book.issued[jti]
    ensures Superseded(a.book, jti) || (HandsOver(a, action, now) && jti == action.jti)
  {
    if action.Login? {
      AddSupersedes(a.book, Issue(action.jti, now), action.jti, jti);
      if jti in a.book.issued {
        assert WiredAt(a.book, jti);
      }
    } else if HandsOver(a, action, now) {
      assert WiredAt(a.book, action.jti);
      AddSupersedes(a.book, Issue(action.newJti, now), a.book.login[action.jti], jti);
      UsableIsNewest(a, action.jti, now);
    }
  }

  lemma StepKeepsInv(a: Auth, action: Action, now: int)
    requires Inv(a, now) && Proper(a.book, action)
    ensures Inv(Step(a, action, now), now)
  {
    var t := Step(a, action, now);
    StepKeepsWired(a, action, now);
    forall jti
      ensures SafeAt(t, jti, now)
    {
      if jti in t.book.issued && Superseded(t.book, jti) {
        StepSupersedes(a, action, now, jti);
        if Superseded(a.book, jti) {
          assert SafeAt(a, jti, now);
          StepKeepsDoom(a, action, now, jti);
        } else {
          assert WiredAt(a.book, jti);
          RefreshDooms(a.strings, a.book.issued[jti], now);
        }
      }
    }
  }

  // ----------------------------------------------------------------------- runs

  datatype ActionAt = ActionAt(action: Action, at: int)

  predicate Follows(a: Auth, next: ActionAt, b: Auth) {
    Proper(a.book, next.action) && b == Step(a, next.action, next.at)
  }

  /** A run from a store without tokens, on a clock that never goes back. */
  predicate Run(actions: seq<ActionAt>, states: seq<Auth>) {
    && |states| == |actions| + 1
    && states[0].book == Book(map[], map[], map[])
    && (forall i :: 0 <= i < |actions| ==> Follows(states[i], actions[i], states[i + 1]))
    && (forall i, j :: 0 <= i < j < |actions| ==> actions[i].at <= actions[j].at)
  }

  lemma NothingIssuedIsSafe(a: Auth, now: int)
    requires a.book == Book(map[], map[], map[])
    ensures Inv(a, now)
  {
  }

  lemma FollowKeepsInv(a: Auth, next: ActionAt, b: Auth, now: int)
    requires Follows(a, next, b) && Inv(a, next.at) && next.at <= now
    ensures Inv(b, now)
  {
    StepKeepsInv(a, next.action, next.at);
    InvLasts(b, next.at, now);
  }

  lemma {:induction false} RunsKeepInv(actions: seq<ActionAt>, states: seq<Auth>, k: nat, now: int)
    requires Run(actions, states) && k < |states|
    requires k > 0 ==> actions[k - 1].at <= now
    ensures Inv(states[k], now)
  {
    if k == 0 {
      NothingIssuedIsSafe(states[0], now);
    } else {
      RunsKeepInv(actions, states, k - 1, actions[k - 1].at);
      assert Follows(states[k - 1], actions[k - 1], states[k - 1 + 1]);
      FollowKeepsInv(states[k - 1], actions[k - 1], states[k], now);
    }
  }

  /** At every moment of every run, of all tokens that descend from one login at
      most one is accepted by the check or by refresh: the newest. */
  lemma OneUsableTokenPerLogin(actions: seq<ActionAt>, states: seq<Auth>, k: nat, now: int, x: Jti, y: Jti)
    requires Run(actions, states) && k < |states|
    requires k > 0 ==> actions[k - 1].at <= now
    requires var book := states[k].book;
      && x in book.issued && y in book.issued
      && x in book.login && y in book.login && book.login[x] == book.login[y]
      && Usable(states[k].strings, book.issued[x], now)
      && Usable(states[k].strings, book.issued[y], now)
    ensures x == y
    ensures var book := states[k].book; book.login[x] in book.newest && book.newest[book.login[x]] == x
  {
    RunsKeepInv(actions, states, k, now);
    UsableIsNewest(states[k], x, now);
    UsableIsNewest(states[k], y, now);
  }

  /** The rest of a run never makes a superseded token usable again. */
  lemma SupersededStaysUseless(actions: seq<ActionAt>, states: seq<Auth>, k: nat, now: int, jti: Jti)
    requires Run(actions, states) && k < |states|
    requires k > 0 ==> actions[k - 1].at <= now
    requires jti in states[k].book.issued && Superseded(states[k].book, jti)
    ensures !Usable(states[k].strings, states[k].book.issued[jti], now)
  {
    RunsKeepInv(actions, states, k, now);
    if Usable(states[k].strings, states[k].book.issued[jti], now) {
      UsableIsNewest(states[k], jti, now);
    }
  }

  lemma NewTokenWorks(s: Strings, token: Token, newJti: Jti, now: int, later: int)
    requires Generated(token.jti) && Generated(newJti) && token.jti != newJti && BlockKey(newJti) !in s
    ensures Accepted(Refreshed(s, token, now), Issue(newJti, now), later) <==>
            later / 1000 < now / 1000 + TOKEN_TTL_SECONDS
  {
    BlockSets(Looked(s, token.jti, now), token.jti, RefreshTtl(token, now), now);
    BlockKeysDiffer(token.jti, newJti);
  }

  /** A refresh that goes through hands over: the new token is accepted at once,
      and until it expires unless blocked, and the old one never again. */
  lemma RefreshHandsOver(a: Auth, jti: Jti, newJti: Jti, now: int, later: int)
    requires Inv(a, now) && Proper(a.book, Refresh(jti, newJti, true)) && now <= later
    requires Refreshable(a.strings, a.book.issued[jti], now)
    requires BlockKey(newJti) !in a.strings
    ensures var b := Step(a, Refresh(jti, newJti, true), now);
      && !Usable(b.strings, a.book.issued[jti], later)
      && newJti in b.book.issued
      && (Accepted(b.strings, b.book.issued[newJti], later) <==> later / 1000 < now / 1000 + TOKEN_TTL_SECONDS)
  {
    var token := a.book.issued[jti];
    assert WiredAt(a.book, jti);
    RefreshDooms(a.strings, token, now);
    DoomedIsUseless(Refreshed(a.strings, token, now), token, now, later);
    NewTokenWorks(a.strings, token, newJti, now, later);
  }

  /** Logout is not quite final: its block ends within the second in which the
      token expires, and refresh takes the token for the rest of that second. At
      every other moment the token is useless. */
  lemma LogoutIsFinalExceptIff(s: Strings, token: Token, now: int, later: int)
    requires IsValidJti(token.jti) && token.exp == token.iat + TOKEN_TTL_SECONDS
    requires Accepted(s, token, now) && now <= later
    ensures var t := AfterLogout(s, token, now);
      && !Accepted(t, token, later)
      && (Refreshable(t, token, later) <==> later / 1000 == token.exp && later % 1000 >= now % 1000)
  {
    BlockSets(RequireAuth(s, token, now), token.jti, token.exp - now / 1000, now);
  }

  /** Logged out half a second into its life, a token is refused a week later to the
      millisecond before that half second, and then refreshed. */
  lemma LogoutReopens(jti: Jti)
    requires IsValidJti(jti)
    ensures var token, t := Issue(jti, 0), AfterLogout(map[], Issue(jti, 0), 500);
      && !Refreshable(t, token, TOKEN_TTL_SECONDS * 1000 + 499)
      && Refreshable(t, token, TOKEN_TTL_SECONDS * 1000 + 500)
  {
    LogoutIsFinalExceptIff(map[], Issue(jti, 0), 500, TOKEN_TTL_SECONDS * 1000 + 499);
    LogoutIsFinalExceptIff(map[], Issue(jti, 0), 500, TOKEN_TTL_SECONDS * 1000 + 500);
  }

  // ------------------------------------------------- the rest of a run

  lemma {:induction false} IssuedStays(actions: seq<ActionAt>, states: seq<Auth>, i: nat, k: nat, jti: Jti)
    requires Run(actions, states) && i <= k < |states| && jti in states[i].book.issued
    ensures jti in states[k].book.issued && states[k].book.issued[jti] == states[i].book.issued[jti]
    decreases k - i
  {
    if i < k {
      IssuedStays(actions, states, i, k - 1, jti);
      assert Follows(states[k - 1], actions[k - 1], states[k - 1 + 1]);
    }
  }

  /** A block holds to its end through the rest of the run. */
  lemma {:induction false} BlockLasts(
    actions: seq<ActionAt>, states: seq<Auth>, i: nat, k: nat, jti: Jti, end: int, now: int)
    requires Run(actions, states) && 0 < i <= k < |states| && Generated(jti)
    requires BlockedUntil(states[i].strings, jti, end, actions[i - 1].at) && actions[k - 1].at <= now
    ensures BlockedUntil(states[k].strings, jti, end, now)
    decreases k - i
  {
    if i < k {
      BlockLasts(actions, states, i, k - 1, jti, end, actions[k - 1].at);
      RunsKeepInv(actions, states, k - 1, actions[k - 1].at);
      assert Follows(states[k - 1], actions[k - 1], states[k - 1 + 1]);
      StepKeepsBlock(states[k - 1], actions[k - 1].action, jti, end, actions[k - 1].at);
    }
  }

  lemma LogoutBlocks(s: Strings, token: Token, now: int)
    requires Accepted(s, token, now)
    ensures BlockedUntil(AfterLogout(s, token, now), token.jti, token.exp * 1000, now)
  {
    BlockSets(RequireAuth(s, token, now), token.jti, token.exp - now / 1000, now);
  }

  /** For the rest of every run the check never accepts a logged-out token again. */
  lemma LoggedOutIsNeverAccepted(actions: seq<ActionAt>, states: seq<Auth>, i: nat, k: nat, jti: Jti, now: int)
    requires Run(actions, states) && i < k < |states| && actions[i].action == Logout(jti)
    requires jti in states[i].book.issued && Accepted(states[i].strings, states[i].book.issued[jti], actions[i].at)
    requires actions[k - 1].at <= now
    ensures jti in states[k].book.issued
    ensures !Accepted(states[k].strings, states[k].book.issued[jti], now)
  {
    var token := states[i].book.issued[jti];
    RunsKeepInv(actions, states, i, actions[i].at);
    assert WiredAt(states[i].book, jti) && Follows(states[i], actions[i], states[i + 1]);
    LogoutBlocks(states[i].strings, token, actions[i].at);
    IssuedStays(actions, states, i, k, jti);
    BlockLasts(actions, states, i + 1, k, jti, token.exp * 1000, now);
    if Accepted(states[k].strings, token, now) {
      FreeMeansOver(states[k].strings, jti, token.exp * 1000, now);
    }
  }

  /** The token's id is not on the blocklist, not even overdue. */
  predicate Free(s: Strings, jti: Jti) {
    BlockKey(jti) !in s
  }

  lemma BlockAddsOne(s: Strings, other: Jti, ttl: int, jti: Jti, now: int)
    requires Generated(other) && Generated(jti) && other != jti && Free(s, jti)
    ensures Free(BlockToken(s, other, ttl, now), jti)
  {
    BlockKeysDiffer(other, jti);
    if ttl > 0 {
      BlockSets(s, other, ttl, now);
    }
  }

  lemma LookAddsNone(s: Strings, other: Jti, jti: Jti, now: int)
    requires Free(s, jti)
    ensures Free(Looked(s, other, now), jti)
  {
  }

  lemma CheckAddsNone(s: Strings, token: Token, jti: Jti, now: int)
    requires Free(s, jti)
    ensures Free(RequireAuth(s, token, now), jti)
  {
    LookAddsNone(s, token.jti, jti, now);
  }

  lemma LogoutAddsOne(s: Strings, token: Token, jti: Jti, now: int)
    requires Generated(token.jti) && Generated(jti) && token.jti != jti && Free(s, jti)
    ensures Free(AfterLogout(s, token, now), jti)
  {
    CheckAddsNone(s, token, jti, now);
    BlockAddsOne(RequireAuth(s, token, now), token.jti, token.exp - now / 1000, jti, now);
  }

  lemma RefreshAddsOne(s: Strings, token: Token, jti: Jti, now: int)
    requires Generated(token.jti) && Generated(jti) && token.jti != jti && Free(s, jti)
    ensures Free(Refreshed(s, token, now), jti)
  {
    LookAddsNone(s, token.jti, jti, now);
    BlockAddsOne(Looked(s, token.jti, now), token.jti, RefreshTtl(token, now), jti, now);
  }

  lemma ForeignAddsNone(s: Strings, c: Command, jti: Jti, now: int)
    requires forall key <- KeysOf(c) :: !(BLOCKLIST_PREFIX <= key)
    requires Free(s, jti)
    ensures Free(LazyStep(s, c, now).strings, jti)
  {
    assert BLOCKLIST_PREFIX <= BlockKey(jti);
    StepSpares(s, c, BlockKey(jti), now);
  }

  /** The token itself is refreshed or logged out. */
  predicate Spends(action: Action, jti: Jti) {
    (action.Refresh? || action.Logout?) && action.jti == jti
  }

  lemma LogoutStepKeepsFree(a: Auth, other: Jti, jti: Jti, now: int)
    requires Wired(a.book) && other in a.book.issued && other != jti && Generated(jti) && Free(a.strings, jti)
    ensures Free(AfterLogout(a.strings, a.book.issued[other], now), jti)
  {
    assert WiredAt(a.book, other);
    LogoutAddsOne(a.strings, a.book.issued[other], jti, now);
  }

  lemma RefreshStepKeepsFree(a: Auth, other: Jti, jti: Jti, now: int)
    requires Wired(a.book) && other in a.book.issued && other != jti && Generated(jti) && Free(a.strings, jti)
    ensures Free(Refreshed(a.strings, a.book.issued[other], now), jti)
    ensures Free(Looked(a.strings, other, now), jti)
  {
    assert WiredAt(a.book, other);
    RefreshAddsOne(a.strings, a.book.issued[other], jti, now);
    LookAddsNone(a.strings, other, jti, now);
  }

  /** A token whose id is not on the blocklist stays off it until somebody refreshes it
      or logs it out. */
  lemma StepKeepsFree(a: Auth, action: Action, jti: Jti, now: int)
    requires Wired(a.book) && Proper(a.book, action) && Generated(jti) && Free(a.strings, jti)
    requires !Spends(action, jti)
    ensures Free(StepStrings(a, action, now), jti)
  {
    match action
    case Login(_) =>
    case Authenticate(other) => CheckAddsNone(a.strings, a.book.issued[other], jti, now);
    case Foreign(c) => ForeignAddsNone(a.strings, c, jti, now);
    case Logout(other) => LogoutStepKeepsFree(a, other, jti, now);
    case Refresh(other, _, _) => RefreshStepKeepsFree(a, other, jti, now);
  }

  lemma {:induction false} FreeLasts(actions: seq<ActionAt>, states: seq<Auth>, i: nat, k: nat, jti: Jti)
    requires Run(actions, states) && i <= k < |states| && Generated(jti) && Free(states[i].strings, jti)
    requires forall m :: i <= m < k ==> !Spends(actions[m].action, jti)
    ensures Free(states[k].strings, jti)
    decreases k - i
  {
    if i < k {
      FreeLasts(actions, states, i, k - 1, jti);
      RunsKeepInv(actions, states, k - 1, actions[k - 1].at);
      assert Follows(states[k - 1], actions[k - 1], states[k - 1 + 1]);
      StepKeepsFree(states[k - 1], actions[k - 1].action, jti, actions[k - 1].at);
    }
  }

  /** Along every run a token that is neither refreshed nor logged out is accepted
      exactly until it expires. */
  lemma FreeTokenWorks(actions: seq<ActionAt>, states: seq<Auth>, i: nat, k: nat, jti: Jti, now: int)
    requires Run(actions, states) && i <= k < |states|
    requires jti in states[i].book.issued && Generated(jti) && Free(states[i].strings, jti)
    requires forall m :: i <= m < k ==> !Spends(actions[m].action, jti)
    ensures jti in states[k].book.issued
    ensures Accepted(states[k].strings, states[k].book.issued[jti], now) <==>
            now / 1000 < states[i].book.issued[jti].exp
  {
    IssuedStays(actions, states, i, k, jti);
    FreeLasts(actions, states, i, k, jti);
    RunsKeepInv(actions, states, k, if k > 0 && actions[k - 1].at > now then actions[k - 1].at else now);
    assert WiredAt(states[k].book, jti);
  }

  /** The step of a refresh issues the new id exactly for an existing user and a token that
      is not blocked and at most seven days old; the new token then lives seven days. */
  lemma RefreshIssuesIff(a: Auth, jti: Jti, newJti: Jti, userExists: bool, now: int)
    requires Wired(a.book) && Proper(a.book, Refresh(jti, newJti, userExists))
    ensures var issued := StepBook(a, Refresh(jti, newJti, userExists), now).issued;
      var key := "blocklist:uuid:" + jti;
      && (newJti in issued <==>
          && userExists
          && !(key in a.strings && (a.strings[key].expireAt.None? || now < a.strings[key].expireAt.value))
          && now / 1000 <= a.book.issued[jti].iat + 7 * 24 * 60 * 60)
      && (newJti in issued ==> issued[newJti] == Token(newJti, now / 1000, now / 1000 + 7 * 24 * 60 * 60))
  {
    assert WiredAt(a.book, jti);
    BlockedIff(a.strings, jti, now);
  }

  /** Along every run a token that is neither refreshed nor logged out can be refreshed
      exactly until seven days after its issue. */
  lemma FreeTokenRefreshes(actions: seq<ActionAt>, states: seq<Auth>, i: nat, k: nat, jti: Jti, newJti: Jti, now: int)
    requires Run(actions, states) && i <= k < |states|
    requires jti in states[i].book.issued && Generated(jti) && Free(states[i].strings, jti)
    requires forall m :: i <= m < k ==> !Spends(actions[m].action, jti)
    requires Proper(states[k].book, Refresh(jti, newJti, true))
    ensures newJti in StepBook(states[k], Refresh(jti, newJti, true), now).issued <==>
            now / 1000 <= states[i].book.issued[jti].iat + 7 * 24 * 60 * 60
  {
    IssuedStays(actions, states, i, k, jti);
    FreeLasts(actions, states, i, k, jti);
    RunsKeepInv(actions, states, k, if k > 0 && actions[k - 1].at > now then actions[k - 1].at else now);
    BlockKeyText(jti);
    RefreshIssuesIff(states[k], jti, newJti, true, now);
  }

  /** A login token that nobody refreshes or logs out: the check accepts it for seven days,
      and refresh takes it for those and one more second. */
  lemma LoginLifetime(actions: seq<ActionAt>, states: seq<Auth>, i: nat, k: nat, jti: Jti, newJti: Jti, now: int)
    requires Run(actions, states) && i < k < |states| && actions[i].action == Login(jti)
    requires Free(states[i].strings, jti)
    requires forall m :: i < m < k ==> !Spends(actions[m].action, jti)
    requires Proper(states[k].book, Refresh(jti, newJti, true))
    ensures var start := actions[i].at / 1000;
      && (Accepted(states[k].strings, states[k].book.issued[jti], now) <==> now / 1000 < start + 604800)
      && (newJti in StepBook(states[k], Refresh(jti, newJti, true), now).issued <==> now / 1000 <= start + 604800)
  {
    assert Follows(states[i], actions[i], states[i + 1]);
    assert states[i + 1].book.issued[jti] == Issue(jti, actions[i].at);
    FreeTokenWorks(actions, states, i + 1, k, jti, now);
    FreeTokenRefreshes(actions, states, i + 1, k, jti, newJti, now);
  }

  predicate HeldTo(s: Strings, jti: Jti, end: int) {
    var key := "blocklist:uuid:" + jti;
    key in s && s[key].expireAt == Some(end)
  }

  lemma BlockHoldsTo(s: Strings, jti: Jti, ttlSeconds: int, now: int)
    requires Generated(jti) && ttlSeconds > 0
    ensures HeldTo(BlockToken(s, jti, ttlSeconds, now), jti, now + ttlSeconds * 1000)
  {
    BlockKeyText(jti);
    BlockSets(s, jti, ttlSeconds, now);
  }

  /** Refresh blocks the old token for what is left of its life, if anything, and seven days
      more. */
  lemma RefreshBlocksFor(s: Strings, token: Token, now: int)
    requires Generated(token.jti)
    ensures var left := if token.exp <= now / 1000 then 0 else token.exp - now / 1000;
      HeldTo(Refreshed(s, token, now), token.jti, now + (left + 7 * 24 * 60 * 60) * 1000)
  {
    BlockHoldsTo(Looked(s, token.jti, now), token.jti, RefreshTtl(token, now), now);
  }

  /** Logout blocks it for what is left of its life. */
  lemma LogoutBlocksFor(s: Strings, token: Token, now: int)
    requires Generated(token.jti) && Accepted(s, token, now)
    ensures HeldTo(AfterLogout(s, token, now), token.jti, now + (token.exp - now / 1000) * 1000)
  {
    BlockHoldsTo(RequireAuth(s, token, now), token.jti, token.exp - now / 1000, now);
  }

  // ---------------------------------------------------------------- the service

  datatype Error = INVALID_TOKEN_IDENTIFIER | INVALID_TOKEN | TOKEN_REVOKED | TOKEN_EXPIRED | USER_NOT_FOUND

  class TokenBlocklist {
    const client: InMemoryRedis<string>

    constructor (client: InMemoryRedis<string>)
      ensures this.client == client
    {
      this.client := client;
    }

    /** An id that is no UUID is refused, unless there is nothing to do. */
    method Block(jti: Jti, ttlSeconds: int, now: int) returns (error: Option<Error>)
      modifies client`memStrings
      ensures error == if ttlSeconds > 0 && !IsValidJti(jti) then Some(INVALID_TOKEN_IDENTIFIER) else None
      ensures client.memStrings ==
              if error.Some? then old(client.memStrings) else BlockToken(old(client.memStrings), jti, ttlSeconds, now)
    {
      if ttlSeconds <= 0 {
        return None;
      }
      if !IsValidJti(jti) {
        return Some(INVALID_TOKEN_IDENTIFIER);
      }
      var reply := client.SetCommand(BlockKey(jti), Decimal(1), [Word("EX"), Number(ttlSeconds)], now);
      error := None;
    }

    method IsBlocked(jti: Jti, now: int) returns (blocked: bool)
      modifies client`memStrings
      ensures blocked == IsTokenBlocked(old(client.memStrings), jti, now)
      ensures client.memStrings == Looked(old(client.memStrings), jti, now)
    {
      if !IsValidJti(jti) {
        return false;
      }
      var reply := client.GetCommand(BlockKey(jti), now);
      blocked := reply != Nil;
    }
  }

  class AuthService {
    const blocklist: TokenBlocklist

    constructor (blocklist: TokenBlocklist)
      ensures this.blocklist == blocklist
    {
      this.blocklist := blocklist;
    }

    /** The middleware: `None` is a token whose signature does not verify. */
    method Authenticate(presented: Option<Token>, now: int) returns (allowed: bool)
      modifies blocklist.client`memStrings
      ensures allowed == (presented.Some? && Accepted(old(blocklist.client.memStrings), presented.value, now))
      ensures blocklist.client.memStrings ==
              if presented.Some? then RequireAuth(old(blocklist.client.memStrings), presented.value, now)
              else old(blocklist.client.memStrings)
    {
      if presented.None? || now / 1000 >= presented.value.exp {
        return false;
      }
      var blocked := blocklist.IsBlocked(presented.value.jti, now);
      allowed := !blocked;
    }

    method RefreshToken(presented: Option<Token>, userExists: bool, newJti: Jti, now: int)
      returns (result: Result<Token, Error>)
      modifies blocklist.client`memStrings
      ensures result.Ok? <==>
                && presented.Some? && userExists && IsValidJti(presented.value.jti)
                && !IsTokenBlocked(old(blocklist.client.memStrings), presented.value.jti, now)
                && now / 1000 <= presented.value.iat + 7 * 24 * 60 * 60
      ensures presented.None? ==>
                result == Err(INVALID_TOKEN) && blocklist.client.memStrings == old(blocklist.client.memStrings)
      ensures presented.Some? ==>
                var token, s := presented.value, old(blocklist.client.memStrings);
                if Refreshable(s, token, now) && userExists && !IsValidJti(token.jti) then
                  result == Err(INVALID_TOKEN_IDENTIFIER) && blocklist.client.memStrings == s
                else if Refreshable(s, token, now) && userExists then
                  result == Ok(Issue(newJti, now)) && blocklist.client.memStrings == Refreshed(s, token, now)
                else
                  && blocklist.client.memStrings == Looked(s, token.jti, now)
                  && result == Err(if IsTokenBlocked(s, token.jti, now) then TOKEN_REVOKED
                                   else if userExists || now / 1000 - token.iat > GRACE_SECONDS then TOKEN_EXPIRED
                                   else USER_NOT_FOUND)
    {
      if presented.None? {
        return Err(INVALID_TOKEN);
      }
      var payload := presented.value;
      var blocked := blocklist.IsBlocked(payload.jti, now);
      if blocked {
        return Err(TOKEN_REVOKED);
      }
      var nowSeconds := now / 1000;
      if nowSeconds - payload.iat > GRACE_SECONDS {
        return Err(TOKEN_EXPIRED);
      }
      if !userExists {
        return Err(USER_NOT_FOUND);
      }
      var oldTtl := payload.exp - nowSeconds;
      var error: Option<Error>;
      if oldTtl > 0 {
        error := blocklist.Block(payload.jti, oldTtl + GRACE_SECONDS, now);
      } else {
        error := blocklist.Block(payload.jti, GRACE_SECONDS, now);
      }
      result := if error.Some? then Err(error.value) else Ok(Issue(newJti, now));
    }

    /** The logout route: the middleware, then the block for the rest of the token's life. */
    method Logout(presented: Option<Token>, now: int) returns (allowed: bool, error: Option<Error>)
      modifies blocklist.client`memStrings
      ensures allowed == (presented.Some? && Accepted(old(blocklist.client.memStrings), presented.value, now))
      ensures error == if allowed && !IsValidJti(presented.value.jti) then Some(INVALID_TOKEN_IDENTIFIER) else None
      ensures var s := old(blocklist.client.memStrings);
        blocklist.client.memStrings ==
        if presented.None? then s
        else if error.None? then AfterLogout(s, presented.value, now)
        else RequireAuth(s, presented.value, now)
    {
      allowed := Authenticate(presented, now);
      error := None;
      if allowed {
        var ttl := presented.value.exp - now / 1000;
        if ttl > 0 {
          error := blocklist.Block(presented.value.jti, ttl, now);
        }
      }
    }
  }
}
