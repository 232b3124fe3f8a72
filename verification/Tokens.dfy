/** Session tokens (`src/session.rs`) and the cookie that carries them (`src/server.rs`). */
module Tokens {
  import opened Common
  import opened Ranges

  type Byte = b: nat | b < 256

  // ---- hexadecimal ----

  function HexDigit(d: nat): char
    requires d < 16
  {
    if d < 10 then '0' + d as char else 'a' + (d - 10) as char
  }

  predicate IsHexDigit(c: char) {
    '0' <= c <= '9' || 'a' <= c <= 'f' || 'A' <= c <= 'F'
  }

  function HexValue(c: char): nat {
    if '0' <= c <= '9' then (c - '0') as nat
    else if 'a' <= c <= 'f' then (c - 'a') as nat + 10
    else if 'A' <= c <= 'F' then (c - 'A') as nat + 10
    else 0
  }

  /** The two characters of one byte. */
  function Pair(b: Byte): string {
    [HexDigit(b / 16), HexDigit(b % 16)]
  }

  function Encode(bytes: seq<Byte>): string {
    if bytes == [] then [] else Encode(bytes[..|bytes| - 1]) + Pair(bytes[|bytes| - 1])
  }

  function Decode(s: string): seq<nat> {
    if |s| < 2 then [] else Decode(s[..|s| - 2]) + [16 * HexValue(s[|s| - 2]) + HexValue(s[|s| - 1])]
  }

  predicate IsToken(s: string) {
    |s| == 64 && forall i :: 0 <= i < |s| ==> IsHexDigit(s[i])
  }

  lemma HexDigitRoundTrip(d: nat)
    requires d < 16
    ensures HexValue(HexDigit(d)) == d && IsHexDigit(HexDigit(d))
  {}

  lemma PairRoundTrip(b: Byte)
    ensures 16 * HexValue(Pair(b)[0]) + HexValue(Pair(b)[1]) == b
    ensures |Pair(b)| == 2 && IsHexDigit(Pair(b)[0]) && IsHexDigit(Pair(b)[1])
  {
    HexDigitRoundTrip(b / 16);
    HexDigitRoundTrip(b % 16);
  }

  lemma DecodeAppend(s: string, pair: string, b: nat)
    requires |pair| == 2 && 16 * HexValue(pair[0]) + HexValue(pair[1]) == b
    ensures Decode(s + pair) == Decode(s) + [b]
  {
    assert (s + pair)[..|s|] == s;
  }

  lemma {:induction false} EncodeDecodes(bytes: seq<Byte>)
    ensures Decode(Encode(bytes)) == bytes
  {
    if bytes == [] {
    } else {
      var init, b := bytes[..|bytes| - 1], bytes[|bytes| - 1];
      EncodeDecodes(init);
      PairRoundTrip(b);
      DecodeAppend(Encode(init), Pair(b), b);
      assert bytes == init + [b];
    }
  }

  lemma {:induction false} EncodeIsHex(bytes: seq<Byte>)
    ensures |Encode(bytes)| == 2 * |bytes| && forall i :: 0 <= i < |Encode(bytes)| ==> IsHexDigit(Encode(bytes)[i])
  {
    if bytes == [] {
    } else {
      EncodeIsHex(bytes[..|bytes| - 1]);
      PairRoundTrip(bytes[|bytes| - 1]);
    }
  }

  /** A token is 64 hexadecimal digits, in either case. */
  lemma TokenText(s: string)
    ensures IsToken(s) <==> |s| == 64 && forall c :: c in s ==> c in "0123456789abcdefABCDEF"
  {
    forall c ensures IsHexDigit(c) <==> c in "0123456789abcdefABCDEF" {
      HexDigitText(c);
    }
    if IsToken(s) {
      forall c | c in s ensures IsHexDigit(c) {
        var i :| 0 <= i < |s| && s[i] == c;
      }
    }
  }

  lemma HexDigitText(c: char)
    ensures IsHexDigit(c) <==> c in "0123456789abcdefABCDEF"
  {
    var digits := "0123456789abcdefABCDEF";
    if '0' <= c <= '9' {
      assert digits[(c - '0') as int] == c;
    } else if 'a' <= c <= 'f' {
      assert digits[(c - 'a') as int + 10] == c;
    } else if 'A' <= c <= 'F' {
      assert digits[(c - 'A') as int + 16] == c;
    }
  }

  /** Different random bytes give different tokens, and every token passes the cookie's own filter. */
  lemma TokensAreInjective(a: seq<Byte>, b: seq<Byte>)
    requires |a| == |b| == 32
    ensures IsToken(Encode(a))
    ensures Encode(a) == Encode(b) <==> a == b
  {
    EncodeIsHex(a);
    EncodeDecodes(a);
    EncodeDecodes(b);
  }

  lemma EncodeNext(bytes: seq<Byte>, b: Byte)
    ensures Encode(bytes + [b]) == Encode(bytes) + [HexDigit(b / 16)] + [HexDigit(b % 16)]
  {
    assert (bytes + [b])[..|bytes|] == bytes;
  }

  const HEX: string := "0123456789abcdef"

  lemma HexDigitIs(d: nat)
    requires d < 16
    ensures HexDigit(d) == HEX[d]
  {}

  lemma {:induction false} EncodeAt(bytes: seq<Byte>, i: nat)
    requires i < |bytes|
    ensures |Encode(bytes)| == 2 * |bytes|
    ensures Encode(bytes)[2 * i] == HEX[bytes[i] / 16] && Encode(bytes)[2 * i + 1] == HEX[bytes[i] % 16]
  {
    var init, b := bytes[..|bytes| - 1], bytes[|bytes| - 1];
    EncodeIsHex(init);
    HexDigitIs(b / 16);
    HexDigitIs(b % 16);
    if i < |init| {
      EncodeAt(init, i);
      assert init[i] == bytes[i];
    }
  }

  /** `random_token`, from the bytes the generator filled in. */
  method RandomToken(random: seq<Byte>) returns (token: string)
    requires |random| == 32
    ensures token == Encode(random) && IsToken(token) && Decode(token) == random
    ensures |token| == 64 && forall i :: 0 <= i < 32 ==>
      token[2 * i] == HEX[random[i] / 16] && token[2 * i + 1] == HEX[random[i] % 16]
  {
    token := "";
    for i := 0 to |random|
      invariant token == Encode(random[..i])
    {
      var b := random[i];
      token := token + [HexDigit(b / 16)];
      token := token + [HexDigit(b % 16)];
      EncodeNext(random[..i], b);
      assert random[..i + 1] == random[..i] + [b];
    }
    assert random[..|random|] == random;
    EncodeIsHex(random);
    EncodeDecodes(random);
    forall i | 0 <= i < 32 ensures token[2 * i] == HEX[random[i] / 16] && token[2 * i + 1] == HEX[random[i] % 16] {
      EncodeAt(random, i);
    }
  }

  // ---- the session cookie ----

  const NAME: string := "arcrelay_web_session="

  /** `str::split` on one character: never empty. */
  function Split(s: string, c: char): (parts: seq<string>)
    ensures parts != []
    decreases |s|
  {
    var i := IndexOf(s, c);
    if i == |s| then [s] else [s[..i]] + Split(s[i + 1..], c)
  }

  function Join(parts: seq<string>, c: char): string
    requires parts != []
  {
    if |parts| == 1 then parts[0] else parts[0] + [c] + Join(parts[1..], c)
  }

  /** A header that is visible text holds no other white space. */
  predicate IsSpace(c: char) {
    c == ' ' || c == '\t'
  }

  function TrimStart(s: string): string {
    if s != [] && IsSpace(s[0]) then TrimStart(s[1..]) else s
  }

  function TrimEnd(s: string): string {
    if s != [] && IsSpace(s[|s| - 1]) then TrimEnd(s[..|s| - 1]) else s
  }

  function Trim(s: string): string {
    TrimEnd(TrimStart(s))
  }

  /** The value of the first cookie with the session's name. */
  function FindSession(parts: seq<string>): Option<string> {
    if parts == [] then None
    else if NAME <= Trim(parts[0]) then Some(Trim(parts[0])[|NAME|..])
    else FindSession(parts[1..])
  }

  /** `session_cookie`. An absent header, or one that is not visible text, is `None`. */
  function SessionCookie(header: Option<string>): Option<string> {
    if header.None? then None
    else
      var found := FindSession(Split(header.value, ';'));
      if found.Some? && IsToken(found.value) then found else None
  }

  const ATTRIBUTES: string := " Path=/; HttpOnly; SameSite=Strict; Max-Age=86400"

  /** What `unlock` sends back. */
  function SetCookie(token: string): string {
    NAME + token + ";" + ATTRIBUTES
  }

  lemma IndexOfAppended(a: string, c: char, b: string)
    requires c !in a
    ensures IndexOf(a + [c] + b, c) == |a| && IndexOf(a, c) == |a|
    ensures (a + [c] + b)[..|a|] == a && (a + [c] + b)[|a| + 1..] == b
  {
    var s := a + [c] + b;
    assert s[|a|] == c;
    forall j | 0 <= j < |a| ensures s[j] != c {
      assert s[j] == a[j] && a[j] in a;
    }
  }

  /** Splitting undoes joining. */
  lemma {:induction false} SplitJoin(parts: seq<string>, c: char)
    requires parts != [] && forall p :: p in parts ==> c !in p
    ensures Split(Join(parts, c), c) == parts
    decreases |parts|
  {
    IndexOfAppended(parts[0], c, if |parts| == 1 then "" else Join(parts[1..], c));
    if |parts| > 1 {
      SplitJoin(parts[1..], c);
    }
  }

  /** Joining undoes splitting, and no part holds the separator: a text has one split. */
  lemma {:induction false} JoinSplit(s: string, c: char)
    ensures Join(Split(s, c), c) == s && forall p :: p in Split(s, c) ==> c !in p
    decreases |s|
  {
    var i := IndexOf(s, c);
    if i < |s| {
      JoinSplit(s[i + 1..], c);
      assert s == s[..i] + [c] + s[i + 1..];
      assert Split(s, c)[1..] == Split(s[i + 1..], c);
    }
  }

  /** Blanks and tabs only. */
  predicate AllSpace(s: string) {
    forall i :: 0 <= i < |s| ==> s[i] == ' ' || s[i] == '\t'
  }

  lemma {:induction false} TrimStartPadded(pad: string, s: string)
    requires AllSpace(pad) && s != [] && !IsSpace(s[0])
    ensures TrimStart(pad + s) == s
  {
    if pad == [] {
      assert pad + s == s;
    } else {
      TrimStartPadded(pad[1..], s);
      assert (pad + s)[1..] == pad[1..] + s;
    }
  }

  lemma {:induction false} TrimEndPadded(s: string, pad: string)
    requires AllSpace(pad) && s != [] && !IsSpace(s[|s| - 1])
    ensures TrimEnd(s + pad) == s
  {
    if pad == [] {
      assert s + pad == s;
    } else {
      var init := pad[..|pad| - 1];
      TrimEndPadded(s, init);
      assert (s + pad)[..|s + pad| - 1] == s + init;
      assert IsSpace(pad[|pad| - 1]);
    }
  }

  lemma CookieIsSolid(token: string)
    requires IsToken(token)
    ensures var cookie := NAME + token; cookie != [] && !IsSpace(cookie[0]) && !IsSpace(cookie[|cookie| - 1]) && ';' !in cookie
  {
    var cookie := NAME + token;
    assert cookie[|cookie| - 1] == token[63] && IsHexDigit(token[63]);
    forall i | 0 <= i < |cookie| ensures cookie[i] != ';' {
      if i >= |NAME| {
        assert cookie[i] == token[i - |NAME|] && IsHexDigit(token[i - |NAME|]);
      }
    }
  }

  lemma TrimPadded(left: string, cookie: string, right: string)
    requires AllSpace(left) && AllSpace(right)
    requires cookie != [] && !IsSpace(cookie[0]) && !IsSpace(cookie[|cookie| - 1])
    ensures Trim(left + cookie + right) == cookie
  {
    assert left + cookie + right == left + (cookie + right);
    TrimStartPadded(left, cookie + right);
    TrimEndPadded(cookie, right);
  }

  lemma {:induction false} FindAfter(before: seq<string>, rest: seq<string>)
    requires forall p :: p in before ==> !(NAME <= Trim(p))
    ensures FindSession(before + rest) == FindSession(rest)
  {
    if before == [] {
      assert before + rest == rest;
    } else {
      assert before[0] in before;
      assert (before + rest)[1..] == before[1..] + rest;
      FindAfter(before[1..], rest);
    }
  }

  /** After blanks, the part begins with the name of the session cookie. */
  ghost predicate Named(part: string) {
    exists left, rest :: AllSpace(left) && part == left + "arcrelay_web_session=" + rest
  }

  lemma {:induction false} TrimStartSplits(s: string) returns (left: string)
    ensures AllSpace(left) && s == left + TrimStart(s)
    ensures TrimStart(s) != [] ==> !IsSpace(TrimStart(s)[0])
  {
    if s != [] && IsSpace(s[0]) {
      left := TrimStartSplits(s[1..]);
      left := [s[0]] + left;
    } else {
      left := "";
    }
  }

  lemma {:induction false} TrimEndSplits(s: string) returns (right: string)
    ensures AllSpace(right) && s == TrimEnd(s) + right
  {
    if s != [] && IsSpace(s[|s| - 1]) {
      right := TrimEndSplits(s[..|s| - 1]);
      right := right + [s[|s| - 1]];
    } else {
      right := "";
    }
  }

  lemma TrimSplits(s: string) returns (left: string, right: string)
    ensures AllSpace(left) && AllSpace(right) && s == left + Trim(s) + right
  {
    left := TrimStartSplits(s);
    right := TrimEndSplits(TrimStart(s));
  }

  lemma {:induction false} TrimEndKeeps(a: string, rest: string)
    requires a != [] && !IsSpace(a[|a| - 1])
    ensures a <= TrimEnd(a + rest)
  {
    if rest == [] {
      assert a + rest == a;
    } else if IsSpace(rest[|rest| - 1]) {
      TrimEndKeeps(a, rest[..|rest| - 1]);
      assert (a + rest)[..|a + rest| - 1] == a + rest[..|rest| - 1];
    }
  }

  lemma NamedExactly(part: string)
    ensures NAME <= Trim(part) <==> Named(part)
  {
    if NAME <= Trim(part) {
      var left, right := TrimSplits(part);
      var rest := Trim(part)[|NAME|..] + right;
      assert Trim(part) == NAME + Trim(part)[|NAME|..];
      assert part == left + "arcrelay_web_session=" + rest;
    }
    if left, rest :| AllSpace(left) && part == left + "arcrelay_web_session=" + rest {
      assert part == left + (NAME + rest);
      TrimStartPadded(left, NAME + rest);
      TrimEndKeeps(NAME, rest);
    }
  }

  /** The token is recovered from any cookie header that carries it among other cookies, with any padding,
      provided no earlier cookie has its name. */
  lemma CookieRoundTrip(before: seq<string>, left: string, token: string, right: string, after: seq<string>)
    requires IsToken(token) && AllSpace(left) && AllSpace(right)
    requires forall p :: p in before || p in after ==> ';' !in p
    requires forall p :: p in before ==> !Named(p)
    ensures SessionCookie(Some(Join(before + [left + ("arcrelay_web_session=" + token) + right] + after, ';'))) == Some(token)
  {
    var cookie := NAME + token;
    forall p | p in before ensures !(NAME <= Trim(p)) {
      NamedExactly(p);
    }
    var part := left + cookie + right;
    var parts := before + [part] + after;
    CookieIsSolid(token);
    assert ';' !in part by {
      assert forall c :: c in part ==> c in left || c in cookie || c in right;
    }
    SplitJoin(parts, ';');
    assert parts == before + ([part] + after);
    FindAfter(before, [part] + after);
    TrimPadded(left, cookie, right);
    assert cookie[..|NAME|] == NAME && cookie[|NAME|..] == token;
  }

  /** The cookie pair of the `Set-Cookie` header, sent back as it is, yields the token. */
  lemma SetCookieRoundTrip(token: string)
    requires IsToken(token)
    ensures SetCookie(token) == "arcrelay_web_session=" + token + ";" + " Path=/; HttpOnly; SameSite=Strict; Max-Age=86400"
    ensures SessionCookie(Some(Split(SetCookie(token), ';')[0])) == Some(token)
  {
    var cookie := NAME + token;
    CookieIsSolid(token);
    assert SetCookie(token) == cookie + [';'] + ATTRIBUTES;
    IndexOfAppended(cookie, ';', ATTRIBUTES);
    CookieRoundTrip([], "", token, "", []);
    assert "" + cookie + "" == cookie;
    assert [] + [cookie] + [] == [cookie];
  }

  ghost predicate FirstNamed(parts: seq<string>, i: nat, value: string) {
    && i < |parts| && Trim(parts[i]) == NAME + value
    && forall j :: 0 <= j < i ==> !(NAME <= Trim(parts[j]))
  }

  /** The first cookie with the session's name has this value. */
  ghost predicate FirstNamedHas(parts: seq<string>, value: string) {
    exists i: nat :: FirstNamed(parts, i, value)
  }

  lemma {:induction false} FindSessionIs(parts: seq<string>, value: string)
    ensures FindSession(parts) == Some(value) <==> FirstNamedHas(parts, value)
  {
    if parts == [] {
    } else {
      var rest := parts[1..];
      FindSessionIs(rest, value);
      if NAME <= Trim(parts[0]) {
        var found := Trim(parts[0])[|NAME|..];
        assert Trim(parts[0]) == NAME + found;
        assert (NAME + value)[|NAME|..] == value;
        if found == value {
          assert FirstNamed(parts, 0, value);
        }
      } else {
        if i: nat :| FirstNamed(rest, i, value) {
          assert FirstNamed(parts, i + 1, value);
        }
        if i: nat :| FirstNamed(parts, i, value) {
          assert i > 0 by {
            assert NAME <= NAME + value;
          }
          assert FirstNamed(rest, i - 1, value);
        }
      }
    }
  }

  /** A header yields a token exactly when its first cookie with the session's name holds that token: an
      ill-formed one before it hides every later one. */
  lemma SessionCookieExactly(header: string, token: string)
    ensures SessionCookie(Some(header)) == Some(token) <==>
      IsToken(token) && FirstNamedHas(Split(header, ';'), token)
  {
    FindSessionIs(Split(header, ';'), token);
  }

  /** The header is a list of cookies in which the first one with the session's name holds the token, padded by blanks. */
  ghost predicate CarriesFirst(header: string, token: string, before: seq<string>, left: string, right: string, after: seq<string>) {
    && AllSpace(left) && AllSpace(right)
    && (forall p :: p in before || p in after ==> ';' !in p)
    && (forall p :: p in before ==> !Named(p))
    && header == Join(before + [left + ("arcrelay_web_session=" + token) + right] + after, ';')
  }

  lemma Carries(header: string, token: string)
    requires SessionCookie(Some(header)) == Some(token)
    ensures exists before, left, right, after :: CarriesFirst(header, token, before, left, right, after)
  {
    var parts := Split(header, ';');
    JoinSplit(header, ';');
    FindSessionIs(parts, token);
    var i: nat :| FirstNamed(parts, i, token);
    var left, right := TrimSplits(parts[i]);
    var before, after := parts[..i], parts[i + 1..];
    assert parts == before + [left + ("arcrelay_web_session=" + token) + right] + after;
    forall p | p in before ensures !Named(p) {
      NamedExactly(p);
    }
    assert CarriesFirst(header, token, before, left, right, after);
  }

  /** A header yields a token exactly when it is a list of cookies, separated by semicolons, whose first one with the session's
      name holds 64 hexadecimal digits between blanks; no header yields none, and whatever is yielded is a token. */
  lemma CookieExactly(header: string, token: string)
    ensures SessionCookie(None) == None
    ensures SessionCookie(Some(header)).Some? ==> IsToken(SessionCookie(Some(header)).value)
    ensures SessionCookie(Some(header)) == Some(token) <==>
      IsToken(token) && exists before, left, right, after :: CarriesFirst(header, token, before, left, right, after)
  {
    if SessionCookie(Some(header)) == Some(token) {
      Carries(header, token);
    }
    if IsToken(token) {
      if before, left, right, after :| CarriesFirst(header, token, before, left, right, after) {
        CookieRoundTrip(before, left, token, right, after);
      }
    }
  }

  /** The form browsers send: cookies separated by a semicolon and a blank. */
  lemma UsualHeader(other: string, token: string)
    requires IsToken(token) && ';' !in other && !Named(other)
    ensures SessionCookie(Some(other + "; " + "arcrelay_web_session=" + token)) == Some(token)
    ensures SessionCookie(Some(other + ";\t" + "arcrelay_web_session=" + token)) == Some(token)
  {
    UsualPart(other, " ", token);
    UsualPart(other, "\t", token);
    var cookie := "arcrelay_web_session=" + token;
    assert other + ";" + " " + cookie == other + "; " + "arcrelay_web_session=" + token;
    assert other + ";" + "\t" + cookie == other + ";\t" + "arcrelay_web_session=" + token;
  }

  lemma UsualPart(other: string, space: string, token: string)
    requires IsToken(token) && ';' !in other && !Named(other) && AllSpace(space)
    ensures SessionCookie(Some(other + ";" + space + ("arcrelay_web_session=" + token))) == Some(token)
  {
    var cookie := "arcrelay_web_session=" + token;
    var part := space + cookie + "";
    CookieRoundTrip([other], space, token, "", []);
    assert [other] + [part] + [] == [other, part] && [other, part][1..] == [part];
    assert part == space + cookie;
    assert other + [';'] + part == other + ";" + space + cookie;
  }
}
