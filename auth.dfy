/** The credential checks in front of the handler: the bearer prefix is
    stripped from the Authorization header (lock-salary.js line 46), and
    verifyAdmin (lines 14-29) accepts a token only when the identity
    service knows it, the user has an id, and the user's first profile row
    has the role 'admin'. */
module Auth {
  import opened Records

  /** The characters JavaScript's `\s` matches: WhiteSpace and
      LineTerminator of ECMA-262, section 12.2 and 12.3. */
  predicate IsJsSpace(c: char) {
    c == '\t' || c == '\n' || c == '\U{000B}' || c == '\U{000C}' || c == '\r' || c == ' ' ||
    c == '\U{00A0}' || c == '\U{1680}' || ('\U{2000}' <= c <= '\U{200A}') ||
    c == '\U{2028}' || c == '\U{2029}' || c == '\U{202F}' || c == '\U{205F}' ||
    c == '\U{3000}' || c == '\U{FEFF}'
  }

  /** Case-insensitive match of one letter under the `i` flag; no other
      character folds to these ASCII letters. */
  predicate SameLetter(c: char, lower: char, upper: char) {
    c == lower || c == upper
  }

  /** The six characters spell "Bearer" in any letter case. */
  predicate IsBearerWord(w: string)
    requires |w| == 6
  {
    SameLetter(w[0], 'b', 'B') && SameLetter(w[1], 'e', 'E') && SameLetter(w[2], 'a', 'A') &&
    SameLetter(w[3], 'r', 'R') && SameLetter(w[4], 'e', 'E') && SameLetter(w[5], 'r', 'R')
  }

  /** Drop the leading run of `\s` characters. */
  function DropSpaces(s: string): (r: string)
    ensures |r| <= |s| && r == s[|s| - |r|..]
    ensures r == [] || !IsJsSpace(r[0])
    ensures forall i :: 0 <= i < |s| - |r| ==> IsJsSpace(s[i])
  {
    if s != [] && IsJsSpace(s[0]) then DropSpaces(s[1..]) else s
  }

  /** The header starts with the `^Bearer\s+` prefix. */
  predicate HasBearerPrefix(auth: string) {
    |auth| >= 7 && IsBearerWord(auth[..6]) && IsJsSpace(auth[6])
  }

  /** `auth.replace(/^Bearer\s+/i, '')`: the prefix and the whole run of
      spaces after it go; any other header is kept as it is. */
  function StripBearer(auth: string): string {
    if HasBearerPrefix(auth) then DropSpaces(auth[6..]) else auth
  }

  /** The token is what follows the prefix and its spaces, or the whole
      header when it has no prefix. */
  lemma StripBearerMeaning(auth: string)
    ensures HasBearerPrefix(auth) ==>
      exists k :: 7 <= k <= |auth| && StripBearer(auth) == auth[k..] &&
        (forall i :: 6 <= i < k ==> IsJsSpace(auth[i])) &&
        (k == |auth| || !IsJsSpace(auth[k]))
    ensures !HasBearerPrefix(auth) ==> StripBearer(auth) == auth
  {
    if HasBearerPrefix(auth) {
      var r := DropSpaces(auth[6..]);
      var k := |auth| - |r|;
      assert auth[6..][|auth[6..]| - |r|..] == auth[k..];
      assert forall i :: 6 <= i < k ==> auth[i] == auth[6..][i - 6];
      assert k == |auth| || auth[k] == r[0];
    }
  }

  /** The token is empty exactly when the header is empty or is "Bearer"
      followed by nothing but spaces (at least one). */
  lemma EmptyToken(auth: string)
    ensures StripBearer(auth) == "" <==>
      auth == "" || (HasBearerPrefix(auth) && forall i :: 6 <= i < |auth| ==> IsJsSpace(auth[i]))
  {
    if HasBearerPrefix(auth) {
      var t := auth[6..];
      assert forall i :: 6 <= i < |auth| ==> auth[i] == t[i - 6];
      AllSpacesDropped(t);
    }
  }

  lemma {:induction false} AllSpacesDropped(s: string)
    ensures DropSpaces(s) == "" <==> forall i :: 0 <= i < |s| ==> IsJsSpace(s[i])
  {
    if s != [] && IsJsSpace(s[0]) {
      AllSpacesDropped(s[1..]);
      assert forall i :: 1 <= i < |s| ==> s[i] == s[1..][i - 1];
    }
  }

  /** The word may come in any letter case and be followed by any run of
      spaces: the token is what follows them. */
  lemma StripsAnyCaseAndSpaces(w: string, spaces: string, token: string)
    requires |w| == 6 && IsBearerWord(w)
    requires |spaces| > 0 && forall i :: 0 <= i < |spaces| ==> IsJsSpace(spaces[i])
    requires token == [] || !IsJsSpace(token[0])
    ensures StripBearer(w + spaces + token) == token
  {
    var auth := w + spaces + token;
    assert auth[..6] == w && auth[6] == spaces[0] && auth[6..] == spaces + token;
    DropLeadingSpaces(spaces, token);
  }

  lemma {:induction false} DropLeadingSpaces(spaces: string, token: string)
    requires forall i :: 0 <= i < |spaces| ==> IsJsSpace(spaces[i])
    requires token == [] || !IsJsSpace(token[0])
    ensures DropSpaces(spaces + token) == token
  {
    if spaces != [] {
      assert (spaces + token)[1..] == spaces[1..] + token;
      DropLeadingSpaces(spaces[1..], token);
    } else {
      assert spaces + token == token;
    }
  }

  lemma StripsPrefix()
    ensures StripBearer("Bearer abc") == "abc"
  {
    assert "Bearer" + " " + "abc" == "Bearer abc";
    StripsAnyCaseAndSpaces("Bearer", " ", "abc");
  }

  lemma MixedCaseWords()
    ensures IsBearerWord("bEaReR") && IsBearerWord("BEARER") && !IsBearerWord("Baerer")
  {
  }

  /** Without a space after it the word is not a prefix: the header is kept
      and is a non-empty token. */
  lemma BareBearerKept()
    ensures StripBearer("Bearer") == "Bearer"
  {
  }

  // ---------------------------------------------------------------------------
  // verifyAdmin

  /** What the identity service answers for a token: an error status, or
      the user object, whose id may be missing (modelled as ""). */
  datatype UserAnswer = Rejected | UserInfo(id: string)

  /** The identity service and the role column of the profiles collection,
      as seen by verifyAdmin. A token the service does not know is rejected;
      the role rows of a user id are the `role` fields of the profile rows
      with that id, in the order the store returns them. */
  datatype AuthService = AuthService(users: map<string, UserAnswer>, roles: map<string, seq<string>>)

  function LookupUser(svc: AuthService, token: string): UserAnswer {
    if token in svc.users then svc.users[token] else Rejected
  }

  function RoleRows(svc: AuthService, id: string): seq<string> {
    if id in svc.roles then svc.roles[id] else []
  }

  /** The decision of verifyAdmin on the two answers. */
  function AdminDecision(user: UserAnswer, roleRows: seq<string>): Option<string> {
    if user.Rejected? then None
    else if user.id == "" then None
    else if |roleRows| == 0 then None
    else if roleRows[0] == "admin" then Some(user.id)
    else None
  }

  function VerifyAdmin(svc: AuthService, token: string): Option<string> {
    var user := LookupUser(svc, token);
    AdminDecision(user, if user.UserInfo? then RoleRows(svc, user.id) else [])
  }

  /** verifyAdmin returns an id exactly when the service knows the token, the
      user has a non-empty id, and the first profile row for that id says
      'admin'; the id returned is the user's own. */
  lemma VerifyAdminMeaning(svc: AuthService, token: string)
    ensures var r := VerifyAdmin(svc, token);
      && (r.Some? <==>
            token in svc.users && svc.users[token].UserInfo? && svc.users[token].id != "" &&
            |RoleRows(svc, svc.users[token].id)| > 0 && RoleRows(svc, svc.users[token].id)[0] == "admin")
      && (r.Some? ==> r.value == svc.users[token].id && r.value != "")
  {
  }

  /** Only the first profile row decides: an 'admin' row after a different
      first row does not make the user an admin. */
  lemma FirstRoleDecides(id: string, first: string, rest: seq<string>)
    requires id != "" && first != "admin"
    ensures AdminDecision(UserInfo(id), [first] + rest).None?
    ensures AdminDecision(UserInfo(id), ["admin"] + rest) == Some(id)
  {
  }
}
