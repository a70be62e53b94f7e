/**
  The two browser stores the navbar reads and writes: the cookie jar behind
  `document.cookie`, and the two `localStorage` keys `auth_token` and
  `user_type`. Both are plain values here; reading them is a pure function.
 */
module Stores {
  import opened Text

  datatype Option<+T> = None | Some(value: T)

  /** The key both stores use for the authentication flag. */
  const AuthTokenKey: string := "auth_token"

  /** One cookie as the page sees it: no path, domain or expiry. */
  datatype Cookie = Cookie(name: string, value: string)

  /** A cookie as it appears in `document.cookie`. */
  function Pair(c: Cookie): (s: string) {
    c.name + "=" + c.value
  }

  /** The string `document.cookie` returns: the pairs joined by `"; "`. */
  function CookieString(jar: seq<Cookie>): (s: string)
    decreases |jar|
  {
    if |jar| == 0 then ""
    else if |jar| == 1 then Pair(jar[0])
    else Pair(jar[0]) + "; " + CookieString(jar[1..])
  }

  /** `p` appears in the cookie's name or in its value. */
  predicate Mentions(c: Cookie, p: string) {
    Contains(c.name, p) || Contains(c.value, p)
  }

  /** A string that no occurrence can straddle a cookie separator with. */
  predicate SeparatorFree(p: string) {
    0 < |p| && '=' !in p && ';' !in p && ' ' !in p
  }

  lemma {:induction false} PairMentions(c: Cookie, p: string)
    requires SeparatorFree(p)
    ensures Contains(Pair(c), p) <==> Mentions(c, p)
  {
    assert Pair(c) == c.name + ['='] + c.value;
    if Contains(Pair(c), p) {
      ContainsSplit(c.name, '=', c.value, p);
    }
    if Contains(c.name, p) {
      ContainsAppendRight(c.name, ['='] + c.value, p);
      assert c.name + (['='] + c.value) == Pair(c);
    }
    if Contains(c.value, p) {
      ContainsAppendLeft(c.name + ['='], c.value, p);
    }
  }

  /** An occurrence in `head + "; " + rest` lies wholly in one of the two parts. */
  lemma JoinMentions(head: string, rest: string, p: string)
    requires SeparatorFree(p)
    ensures Contains(head + "; " + rest, p) <==> Contains(head, p) || Contains(rest, p)
  {
    var s := head + "; " + rest;
    assert s == head + [';'] + ([' '] + rest);
    if Contains(s, p) {
      ContainsSplit(head, ';', [' '] + rest, p);
      if Contains([' '] + rest, p) {
        assert [' '] + rest == [] + [' '] + rest;
        ContainsSplit([], ' ', rest, p);
        EmptyContainsNothing(p);
      }
    }
    if Contains(head, p) {
      ContainsAppendRight(head, [';'] + ([' '] + rest), p);
      assert head + ([';'] + ([' '] + rest)) == s;
    }
    if Contains(rest, p) {
      ContainsAppendLeft(head + "; ", rest, p);
    }
  }

  /**
    Searching `document.cookie` for a separator-free string finds it exactly
    when some single cookie mentions it in its name or its value.
   */
  lemma {:induction false} CookieStringMentions(jar: seq<Cookie>, p: string)
    requires SeparatorFree(p)
    ensures Contains(CookieString(jar), p) <==> exists c :: c in jar && Mentions(c, p)
    decreases |jar|
  {
    if |jar| == 0 {
      EmptyContainsNothing(p);
    } else if |jar| == 1 {
      PairMentions(jar[0], p);
      assert forall c :: c in jar <==> c == jar[0];
    } else {
      CookieStringMentions(jar[1..], p);
      PairMentions(jar[0], p);
      JoinMentions(Pair(jar[0]), CookieString(jar[1..]), p);
      assert forall c :: c in jar <==> c == jar[0] || c in jar[1..];
    }
  }

  /** The two `localStorage` keys the navbar touches. */
  datatype LocalStore = LocalStore(authToken: Option<string>, userType: Option<string>)

  /** Everything the navbar reads from the browser. */
  datatype Browser = Browser(cookies: seq<Cookie>, local: LocalStore)

  /** The two independent signs of a session. */
  datatype Indicator = CookieIndicator | LocalStorageIndicator

  /**
    Whether indicator `i` reports a session: the cookie string contains
    `auth_token` anywhere, or `localStorage.auth_token` is exactly `"true"`.
   */
  predicate Indicates(i: Indicator, b: Browser) {
    match i
    case CookieIndicator => Contains(CookieString(b.cookies), AuthTokenKey)
    case LocalStorageIndicator => b.local.authToken == Some("true")
  }

  /** Some indicator reports a session. */
  predicate HasSession(b: Browser) {
    Indicates(CookieIndicator, b) || Indicates(LocalStorageIndicator, b)
  }

  /** A cookie that is not the session cookie yet mentions its name. */
  predicate Lookalike(c: Cookie) {
    c.name != AuthTokenKey && Mentions(c, AuthTokenKey)
  }

  /**
    The cookie indicator fires exactly when some cookie mentions
    `auth_token`: the session cookie itself, or any lookalike.
   */
  lemma CookieIndicatorMeaning(b: Browser)
    ensures Indicates(CookieIndicator, b) <==> exists c :: c in b.cookies && Mentions(c, AuthTokenKey)
    ensures Indicates(CookieIndicator, b) <==>
              (exists c :: c in b.cookies && c.name == AuthTokenKey) || (exists c :: c in b.cookies && Lookalike(c))
  {
    CookieStringMentions(b.cookies, AuthTokenKey);
    forall c | c in b.cookies && c.name == AuthTokenKey
      ensures Mentions(c, AuthTokenKey)
    {
      assert StartsWith(c.name, AuthTokenKey);
    }
  }
}
