/** The way back: a backend's `Set-Cookie` headers, renamed into the jar, as a user agent takes them apart; and then the
whole way round.
*/
module SetCookies {
  import opened Rows
  import opened Cookies

  function LowerChar(c: char): char {
    if 'A' <= c <= 'Z' then c - 'A' + 'a' else c
  }

  /** `toLowerCase`, as far as it can make a letter of "path" or "domain". */
  function Lower(s: string): (lower: string)
    ensures |lower| == |s| && forall i :: 0 <= i < |s| ==> lower[i] == LowerChar(s[i])
  {
    if s == "" then "" else [LowerChar(s[0])] + Lower(s[1..])
  }

  /** `attribute.split("=")[0].toLowerCase()`. */
  function RawKey(attribute: string): string {
    Lower(attribute[..Find(attribute, '=')])
  }

  /** The attributes that are not the server's idea of path and domain. */
  function Kept(attributes: seq<string>): seq<string> {
    if attributes == [] then []
    else
      var attribute := Trim(attributes[0]);
      (if RawKey(attribute) == "path" || RawKey(attribute) == "domain" then [] else [attribute]) + Kept(attributes[1..])
  }

  function Rename(backend: Backend, cookie: string): string {
    var parts := Split(cookie);
    var pair := parts[0];
    var eq := Find(pair, '=');
    if eq == |pair| then cookie
    else Join([JarPrefix(backend) + pair[..eq] + "=" + pair[eq + 1..], "Path=" + backend.mount] + Kept(parts[1..]))
  }

  /** On the way in: every cookie under the prefix, on the backend's path. */
  method ProxyRes(backend: Backend, response: Message)
    modifies response`setCookie
    ensures response.setCookie.Some? <==> old(response.setCookie).Some?
    ensures response.setCookie.Some? ==>
      && |response.setCookie.value| == |old(response.setCookie).value|
      && forall i :: 0 <= i < |response.setCookie.value| ==>
        response.setCookie.value[i] == Rename(backend, old(response.setCookie).value[i])
  {
    if response.setCookie == None { return; }
    var cookies := response.setCookie.value;
    response.setCookie := Some(seq(|cookies|, i requires 0 <= i < |cookies| => Rename(backend, cookies[i])));
  }

  lemma {:induction false} PartsHaveNoSemicolon(s: string)
    ensures forall i :: 0 <= i < |Split(s)| ==> ';' !in Split(s)[i]
    decreases |s|
  {
    var at := Find(s, ';');
    if at < |s| { PartsHaveNoSemicolon(s[at + 1..]); }
  }

  lemma {:induction false} StripStartIsSuffix(s: string, drop: char -> bool)
    ensures |StripStart(s, drop)| <= |s| && StripStart(s, drop) == s[|s| - |StripStart(s, drop)|..]
    decreases |s|
  {
    if s != "" && drop(s[0]) { StripStartIsSuffix(s[1..], drop); }
  }

  lemma {:induction false} StripEndIsPrefix(s: string, drop: char -> bool)
    ensures StripEnd(s, drop) <= s
    decreases |s|
  {
    if s != "" && drop(s[|s| - 1]) { StripEndIsPrefix(s[..|s| - 1], drop); }
  }

  /** What `trim` takes off is white space, at the two ends, and all there is of it. */
  lemma TrimIsExact(s: string) returns (a: nat, b: nat)
    ensures a <= b <= |s| && Trim(s) == s[a..b]
    ensures forall i :: 0 <= i < a || b <= i < |s| ==> Space(s[i])
    ensures Trim(s) != "" ==> !Space(s[a]) && !Space(s[b - 1])
  {
    a := StripStartAt(s, Space);
    var rest := s[a..];
    var n := StripEndAt(rest, Space);
    b := a + n;
    forall i | b <= i < |s| ensures Space(s[i]) {
      assert s[i] == rest[i - a];
    }
    assert rest[..n] == s[a..b];
  }

  lemma {:induction false} StripStartAt(s: string, drop: char -> bool) returns (a: nat)
    ensures a <= |s| && StripStart(s, drop) == s[a..] && forall i :: 0 <= i < a ==> drop(s[i])
    ensures a < |s| ==> !drop(s[a])
    decreases |s|
  {
    if s != "" && drop(s[0]) {
      var k := StripStartAt(s[1..], drop);
      a := k + 1;
      assert s[1..][k..] == s[a..];
      forall i | 0 <= i < a ensures drop(s[i]) {
        if i > 0 { assert s[i] == s[1..][i - 1]; }
      }
    } else {
      a := 0;
    }
  }

  lemma {:induction false} StripEndAt(s: string, drop: char -> bool) returns (n: nat)
    ensures n <= |s| && StripEnd(s, drop) == s[..n] && forall i :: n <= i < |s| ==> drop(s[i])
    ensures 0 < n ==> !drop(s[n - 1])
    decreases |s|
  {
    if s != "" && drop(s[|s| - 1]) {
      n := StripEndAt(s[..|s| - 1], drop);
    } else {
      n := |s|;
    }
  }

  /** A trimmed string is a part of the string. */
  lemma TrimIsPart(s: string)
    ensures forall c :: c in Trim(s) ==> c in s
  {
    StripStartIsSuffix(s, Space);
    StripEndIsPrefix(StripStart(s, Space), Space);
  }

  lemma {:induction false} KeptHaveNoSemicolon(attributes: seq<string>)
    requires forall i :: 0 <= i < |attributes| ==> ';' !in attributes[i]
    ensures forall i :: 0 <= i < |Kept(attributes)| ==> ';' !in Kept(attributes)[i]
    decreases |attributes|
  {
    if attributes != [] {
      TrimIsPart(attributes[0]);
      KeptHaveNoSemicolon(attributes[1..]);
    }
  }

  /** How a user agent takes a renamed cookie apart (section 5.2 of RFC 6265): the pair the jar is made of, then this
      backend's path, then what was kept. */
  lemma RenamedParts(backend: Backend, cookie: string)
    requires LettersOnly(backend.id) && ';' !in backend.mount && '=' in Split(cookie)[0]
    ensures var parts, pair := Split(Rename(backend, cookie)), PairOf(Split(cookie)[0]);
      parts == [Piece(backend, Mine(pair.0, pair.1))] + ([" Path=" + backend.mount] + Spaced(Kept(Split(cookie)[1..])))
  {
    var pair, kept := PairOf(Split(cookie)[0]), Kept(Split(cookie)[1..]);
    PartsHaveNoSemicolon(cookie);
    KeptHaveNoSemicolon(Split(cookie)[1..]);
    PieceHasNoSemicolon(backend, pair.0, pair.1);
    PartsOfThree(Piece(backend, Mine(pair.0, pair.1)), "Path=" + backend.mount, kept);
    PathText(backend.mount);
  }

  lemma PathText(mount: string)
    ensures " " + ("Path=" + mount) == " Path=" + mount
  {
    assert " " + "Path=" == " Path=";
  }

  lemma PartsOfThree(first: string, second: string, rest: seq<string>)
    requires ';' !in first && ';' !in second && forall i :: 0 <= i < |rest| ==> ';' !in rest[i]
    ensures Split(Join([first, second] + rest)) == [first] + ([" " + second] + Spaced(rest))
  {
    var all := [first, second] + rest;
    forall i | 0 <= i < |all| ensures ';' !in all[i] {
      if i > 1 { assert all[i] == rest[i - 2]; }
    }
    SplitOfAll(all);
    assert all[2..] == rest;
  }

  lemma SplitOfAll(all: seq<string>)
    requires |all| >= 2 && forall i :: 0 <= i < |all| ==> ';' !in all[i]
    ensures Split(Join(all)) == [all[0]] + ([" " + all[1]] + Spaced(all[2..]))
  {
    SplitOfJoin(all);
    SpacedTail(all);
  }

  lemma SpacedTail(all: seq<string>)
    requires |all| >= 2
    ensures Spaced(all[1..]) == [" " + all[1]] + Spaced(all[2..])
  {
    assert all[1..][1..] == all[2..];
  }

  lemma PieceHasNoSemicolon(backend: Backend, name: string, value: string)
    requires LettersOnly(backend.id) && ';' !in name && ';' !in value
    ensures ';' !in Piece(backend, Mine(name, value))
  {
  }

  /** A header that sets no pair is passed on as it came. */
  lemma WithoutASignNothingIsRenamed(backend: Backend, cookie: string)
    requires '=' !in Split(cookie)[0]
    ensures Rename(backend, cookie) == cookie
  {
    FindNone(Split(cookie)[0], '=');
  }

  // ---- the user agent (section 5.2 of RFC 6265) -------------------------------------------------------------

  /** The white space a user agent takes off: space and tab, and nothing else. */
  predicate Blank(c: char) {
    c == ' ' || c == '\t'
  }

  /** An attribute as it is read: the name in lower case, the value, both without the blanks around them. */
  function Attribute(text: string): NameValue {
    var pair := PairOf(text);
    (Lower(Strip(pair.0, Blank)), Strip(pair.1, Blank))
  }

  /** The values of the attributes of one name, in order. */
  function Named(key: string, attributes: seq<string>): seq<string> {
    if attributes == [] then []
    else (if Attribute(attributes[0]).0 == key then [Attribute(attributes[0]).1] else []) + Named(key, attributes[1..])
  }

  /** The pair it stores; none without a `=`. */
  function StoredPair(cookie: string): Option<NameValue> {
    var text := Split(cookie)[0];
    if '=' !in text then None else Some((Strip(PairOf(text).0, Blank), Strip(PairOf(text).1, Blank)))
  }

  lemma StripIsIdle(s: string, drop: char -> bool)
    requires s == "" || (!drop(s[0]) && !drop(s[|s| - 1]))
    ensures Strip(s, drop) == s
  {
  }

  /** A blank in front is not read. */
  lemma BlankInFront(text: string)
    ensures Attribute(" " + text) == Attribute(text)
  {
    var spaced, at := " " + text, Find(text, '=');
    assert spaced[1..] == text;
    assert Find(spaced, '=') == at + 1;
    assert spaced[..at + 1] == " " + text[..at] && (" " + text[..at])[1..] == text[..at];
    if at < |text| {
      assert spaced[at + 2..] == text[at + 1..];
    } else {
      assert text[..at] == text;
    }
  }

  /** An attribute the user agent takes for `key` and the proxy does not: blanks before its `=`. */
  predicate Loose(key: string, attribute: string) {
    Attribute(Trim(attribute)).0 == key && RawKey(Trim(attribute)) != key
  }

  /** Such as this one, which is the server's own path and goes through beside the backend's. */
  lemma ABlankBeforeTheSign()
    ensures Loose("path", "Path =/")
  {
    var text := "Path =/";
    StripIsIdle(text, Space);
    assert text[..5] == "Path " && text[5] == '=';
    FindFirst(text, '=', 5);
    assert "Path "[..4] == "Path" && Strip("Path ", Blank) == "Path";
    assert Lower("Path") == "path" && |Lower("Path ")| == 5;
  }

  lemma TightKeys(whole: string, key: string)
    requires key == "path" || key == "domain"
    ensures RawKey(whole) == key ==> Attribute(whole).0 == key
  {
    var name := whole[..Find(whole, '=')];
    if Lower(name) == key {
      assert LowerChar(name[0]) == key[0] && LowerChar(name[|name| - 1]) == key[|key| - 1];
      StripIsIdle(name, Blank);
      assert Find(whole, '=') == |whole| ==> name == whole;
    }
  }

  lemma {:induction false} SpacedNamed(key: string, attributes: seq<string>)
    ensures Named(key, Spaced(attributes)) == Named(key, attributes)
    decreases |attributes|
  {
    if attributes != [] {
      BlankInFront(attributes[0]);
      SpacedNamed(key, attributes[1..]);
    }
  }

  /** The attributes without the white space around them. */
  function Trimmed(attributes: seq<string>): seq<string> {
    if attributes == [] then [] else [Trim(attributes[0])] + Trimmed(attributes[1..])
  }

  lemma NamedFirst(key: string, first: string, rest: seq<string>)
    ensures Named(key, [first] + rest)
         == (if Attribute(first).0 == key then [Attribute(first).1] else []) + Named(key, rest)
  {
    assert ([first] + rest)[1..] == rest;
  }

  /** The kept attributes, one at a time, as the user agent names them. */
  lemma KeptFirst(key: string, attributes: seq<string>)
    requires attributes != []
    ensures var whole := Trim(attributes[0]);
      var kept := RawKey(whole) != "path" && RawKey(whole) != "domain";
      Named(key, Kept(attributes)) ==
        (if kept && Attribute(whole).0 == key then [Attribute(whole).1] else []) + Named(key, Kept(attributes[1..]))
  {
    var whole, rest := Trim(attributes[0]), Kept(attributes[1..]);
    NamedFirst(key, whole, rest);
    if RawKey(whole) == "path" || RawKey(whole) == "domain" {
      assert Kept(attributes) == [] + rest == rest;
    } else {
      assert Kept(attributes) == [whole] + rest;
    }
  }

  /** Of the attributes that mean `path` or `domain`, the loose ones are what is kept. */
  lemma {:induction false} KeptLoose(key: string, attributes: seq<string>)
    requires key == "path" || key == "domain"
    ensures Named(key, Kept(attributes)) == [] <==> forall i :: 0 <= i < |attributes| ==> !Loose(key, attributes[i])
    decreases |attributes|
  {
    if attributes != [] {
      KeptLoose(key, attributes[1..]);
      KeptFirst(key, attributes);
      TightKeys(Trim(attributes[0]), "path");
      TightKeys(Trim(attributes[0]), "domain");
      assert "path" != "domain";
      assert forall i :: 0 < i < |attributes| ==> attributes[i] == attributes[1..][i - 1];
    }
  }

  /** Of the others, all. */
  lemma {:induction false} KeptOthers(key: string, attributes: seq<string>)
    requires key != "path" && key != "domain"
    ensures Named(key, Kept(attributes)) == Named(key, Trimmed(attributes))
    decreases |attributes|
  {
    if attributes != [] {
      KeptOthers(key, attributes[1..]);
      KeptFirst(key, attributes);
      NamedFirst(key, Trim(attributes[0]), Trimmed(attributes[1..]));
      TightKeys(Trim(attributes[0]), "path");
      TightKeys(Trim(attributes[0]), "domain");
    }
  }

  lemma PathIsPath(mount: string)
    ensures Attribute(" Path=" + mount) == ("path", Strip(mount, Blank))
  {
    PathText(mount);
    BlankInFront("Path=" + mount);
    PairOfPath(mount);
    StripIsIdle("Path", Blank);
    assert Lower("Path") == "path";
  }

  lemma PairOfPath(mount: string)
    ensures PairOf("Path=" + mount) == ("Path", mount)
  {
    var text := "Path=" + mount;
    assert text[..4] == "Path" && text[4] == '=' && text[5..] == mount;
    FindFirst(text, '=', 4);
  }

  /** A user agent sees one path, the backend's, and no domain, exactly when the server wrote neither with blanks before
      the `=`; every other attribute goes through, without the white space around it. */
  lemma ScopedExactly(backend: Backend, cookie: string, key: string)
    requires LettersOnly(backend.id) && ';' !in backend.mount && '=' in Split(cookie)[0]
    ensures var before, after := Split(cookie)[1..], Split(Rename(backend, cookie))[1..];
      && (Named("path", after) == [Strip(backend.mount, Blank)]
          <==> forall i :: 0 <= i < |before| ==> !Loose("path", before[i]))
      && (Named("domain", after) == [] <==> forall i :: 0 <= i < |before| ==> !Loose("domain", before[i]))
      && (key != "path" && key != "domain" ==> Named(key, after) == Named(key, Trimmed(before)))
  {
    RenamedParts(backend, cookie);
    var before, kept := Split(cookie)[1..], Kept(Split(cookie)[1..]);
    var after := Split(Rename(backend, cookie))[1..];
    assert after == [" Path=" + backend.mount] + Spaced(kept);
    PathIsPath(backend.mount);
    AfterThePath("path", backend.mount, kept);
    AfterThePath("domain", backend.mount, kept);
    AfterThePath(key, backend.mount, kept);
    KeptLoose("path", before);
    KeptLoose("domain", before);
    if key != "path" && key != "domain" { KeptOthers(key, before); }
  }

  lemma AfterThePath(key: string, mount: string, kept: seq<string>)
    ensures Named(key, [" Path=" + mount] + Spaced(kept))
         == (if key == "path" then [Strip(mount, Blank)] else []) + Named(key, kept)
  {
    PathIsPath(mount);
    NamedFirst(key, " Path=" + mount, Spaced(kept));
    SpacedNamed(key, kept);
  }

  // ---- there and back ---------------------------------------------------------------------------------------

  /** A pair without blanks at its ends: what a server that keeps to section 4.1.1 sends. */
  predicate Tidy(pair: NameValue) {
    && NameOk(pair.0) && ValueOk(pair.1)
    && (pair.0 != "" ==> !Blank(pair.0[|pair.0| - 1]))
    && (pair.1 != "" ==> !Blank(pair.1[0]))
  }

  lemma StandardPairsAreTidy(name: string, value: string)
    requires Standard(name, value)
    ensures Tidy((name, value))
  {
    StandardPairsAreOk(name, value);
  }

  /** The pair a server puts into a `Set-Cookie`. */
  function ServerPair(cookie: string): NameValue {
    PairOf(Split(cookie)[0])
  }

  lemma TidyReadsBack(pair: NameValue)
    requires Tidy(pair)
    ensures '=' in Show(pair) && PairOf(Show(pair)) == pair
    ensures Strip(pair.0, Blank) == pair.0 && Strip(pair.1, Blank) == pair.1
  {
    ShownReadsBack(pair);
    assert Show(pair)[|pair.0|] == '=';
    StripIsIdle(pair.0, Blank);
    StripIsIdle(pair.1, Blank);
  }

  lemma PrefixedIsTidy(backend: Backend, pair: NameValue)
    requires LettersOnly(backend.id) && Tidy(pair)
    ensures Tidy((JarPrefix(backend) + pair.0, pair.1))
  {
    var name := JarPrefix(backend) + pair.0;
    PrefixedNameOk(backend, pair.0);
    assert name[|name| - 1] == if pair.0 == "" then '_' else pair.0[|pair.0| - 1];
  }

  /** What the user agent stores of a renamed cookie is the server's pair, under the prefix. */
  lemma StoredUnderThePrefix(backend: Backend, cookie: string)
    requires LettersOnly(backend.id) && ';' !in backend.mount && '=' in Split(cookie)[0] && Tidy(ServerPair(cookie))
    ensures var pair := ServerPair(cookie);
      StoredPair(Rename(backend, cookie)) == Some(("snake_" + backend.id + "__" + pair.0, pair.1))
  {
    var stored := (JarPrefix(backend) + ServerPair(cookie).0, ServerPair(cookie).1);
    RenamedParts(backend, cookie);
    assert Split(Rename(backend, cookie))[0] == Show(stored);
    PrefixedIsTidy(backend, ServerPair(cookie));
    TidyReadsBack(stored);
  }

  /** Where a cookie the browser sends came from: a `Set-Cookie` of this backend that the proxy renamed, or
      elsewhere. */
  datatype Origin = SetBy(cookie: string) | Elsewhere(piece: string)

  ghost predicate OriginOk(backend: Backend, origin: Origin) {
    match origin
    case SetBy(cookie) => '=' in Split(cookie)[0] && Tidy(ServerPair(cookie))
    case Elsewhere(piece) => Foreign(backend, piece)
  }

  /** What the browser sends of it. */
  function SentOf(backend: Backend, origin: Origin): string {
    match origin
    case SetBy(cookie) =>
      var stored := StoredPair(Rename(backend, cookie));
      if stored.Some? then Show(stored.value) else ""
    case Elsewhere(piece) => piece
  }

  function Sent(backend: Backend, origins: seq<Origin>): seq<string> {
    if origins == [] then [] else [SentOf(backend, origins[0])] + Sent(backend, origins[1..])
  }

  function SetPairs(origins: seq<Origin>): seq<NameValue> {
    if origins == [] then []
    else (if origins[0].SetBy? then [ServerPair(origins[0].cookie)] else []) + SetPairs(origins[1..])
  }

  function JarOf(origins: seq<Origin>): (jar: seq<Stored>)
    ensures |jar| == |origins|
  {
    if origins == [] then []
    else
      [match origins[0]
       case SetBy(cookie) => Mine(ServerPair(cookie).0, ServerPair(cookie).1)
       case Elsewhere(piece) => Other(piece)] + JarOf(origins[1..])
  }

  lemma {:induction false} SentIsTheJar(backend: Backend, origins: seq<Origin>)
    requires LettersOnly(backend.id) && ';' !in backend.mount
    requires forall i :: 0 <= i < |origins| ==> OriginOk(backend, origins[i])
    ensures Pieces(backend, JarOf(origins)) == Sent(backend, origins) && Own(JarOf(origins)) == SetPairs(origins)
    ensures JarOk(backend, JarOf(origins))
    decreases |origins|
  {
    if origins != [] {
      var jar, rest := JarOf(origins), JarOf(origins[1..]);
      assert OriginOk(backend, origins[0]);
      SentIsTheJar(backend, origins[1..]);
      assert jar[1..] == rest;
      if origins[0].SetBy? { StoredUnderThePrefix(backend, origins[0].cookie); }
      forall i | 0 <= i < |jar| ensures i > 0 ==> jar[i] == rest[i - 1] { }
    }
  }

  /** From the server and back to it: whatever `Set-Cookie`s a backend sends, renamed on the way in, stored and sent
      by the browser among anybody's cookies, and filtered and stripped on the way out, it reads exactly the pairs it
      set, in order. */
  lemma CookiesComeBack(backend: Backend, origins: seq<Origin>)
    requires LettersOnly(backend.id) && ';' !in backend.mount
    requires forall i :: 0 <= i < |origins| ==> OriginOk(backend, origins[i])
    ensures var forwarded := Outbound(backend, Join(Sent(backend, origins)));
      if SetPairs(origins) == [] then forwarded == None
      else forwarded.Some? && ParseCookies(forwarded.value) == SetPairs(origins)
  {
    SentIsTheJar(backend, origins);
    JarRoundTrip(backend, JarOf(origins));
  }
}
