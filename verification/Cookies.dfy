/** The dev proxy's cookie jar: every backend's cookies live in the browser under a prefix of their own, and only that
backend gets them back, under the names it gave them.
*/
module Cookies {
  import opened Rows

  // ---- the string operations the proxy is written in --------------------------------------------------------

  predicate Space(c: char) {
    c in {' ', '\t', '\n', '\r', '\U{000B}', '\U{000C}', '\U{00A0}', '\U{1680}', '\U{2028}', '\U{2029}', '\U{202F}',
          '\U{205F}', '\U{3000}', '\U{FEFF}'}
    || '\U{2000}' <= c <= '\U{200A}'
  }

  function StripStart(s: string, drop: char -> bool): string {
    if s != "" && drop(s[0]) then StripStart(s[1..], drop) else s
  }

  function StripEnd(s: string, drop: char -> bool): string {
    if s != "" && drop(s[|s| - 1]) then StripEnd(s[..|s| - 1], drop) else s
  }

  function Strip(s: string, drop: char -> bool): string {
    StripEnd(StripStart(s, drop), drop)
  }

  /** JavaScript's `trim`. */
  function Trim(s: string): string {
    Strip(s, Space)
  }

  /** `indexOf`: the length stands for "not there". */
  function Find(s: string, c: char): (at: nat)
    ensures at <= |s| && c !in s[..at] && (at < |s| ==> s[at] == c)
  {
    if s == "" || s[0] == c then 0 else 1 + Find(s[1..], c)
  }

  function Split(s: string): seq<string>
    decreases |s|
  {
    var at := Find(s, ';');
    if at == |s| then [s] else [s[..at]] + Split(s[at + 1..])
  }

  function Join(pieces: seq<string>): string {
    if pieces == [] then ""
    else if |pieces| == 1 then pieces[0]
    else pieces[0] + "; " + Join(pieces[1..])
  }

  predicate StartsWith(s: string, prefix: string) {
    prefix <= s
  }

  // ---- the proxy --------------------------------------------------------------------------------------------

  type NameValue = (string, string)

  /** What a backend is known by, and the path it is mounted under. */
  datatype Backend = Backend(id: string, mount: string)

  function JarPrefix(backend: Backend): string {
    "snake_" + backend.id + "__"
  }

  /** One piece, cut at its first `=`. */
  function PairOf(piece: string): NameValue {
    var at := Find(piece, '=');
    if at == |piece| then (piece, "") else (piece[..at], piece[at + 1..])
  }

  function PairsOf(pieces: seq<string>): seq<NameValue> {
    if pieces == [] then []
    else (if Trim(pieces[0]) == "" then [] else [PairOf(Trim(pieces[0]))]) + PairsOf(pieces[1..])
  }

  function ParseCookies(header: string): seq<NameValue> {
    PairsOf(Split(header))
  }

  /** The pairs whose names carry the prefix, without it. */
  function Taken(prefix: string, pairs: seq<NameValue>): seq<NameValue> {
    if pairs == [] then []
    else
      (if StartsWith(pairs[0].0, prefix) then [(pairs[0].0[|prefix|..], pairs[0].1)] else [])
      + Taken(prefix, pairs[1..])
  }

  function Show(pair: NameValue): string {
    pair.0 + "=" + pair.1
  }

  function Shown(pairs: seq<NameValue>): seq<string> {
    if pairs == [] then [] else [Show(pairs[0])] + Shown(pairs[1..])
  }

  /** The `Cookie` header: `a=1; b=2`. */
  function Print(pairs: seq<NameValue>): string {
    Join(Shown(pairs))
  }

  function Outbound(backend: Backend, header: string): Option<string> {
    var mine := Taken(JarPrefix(backend), ParseCookies(header));
    if mine == [] then None else Some(Print(mine))
  }

  /** The headers of a message, as far as cookies go. */
  class Message {
    var cookie: Option<string>
    var setCookie: Option<seq<string>>

    constructor (cookie: Option<string>, setCookie: Option<seq<string>>)
      ensures this.cookie == cookie && this.setCookie == setCookie
    {
      this.cookie, this.setCookie := cookie, setCookie;
    }
  }

  /** On the way out: only this backend's jar, with the prefix taken off. */
  method ProxyReq(backend: Backend, request: Message, forwarded: Message)
    modifies forwarded`cookie
    ensures forwarded.cookie ==
      if old(request.cookie) == None then old(forwarded.cookie) else Outbound(backend, old(request.cookie).value)
  {
    if request.cookie == None { return; }
    var prefix := JarPrefix(backend);
    var pairs := ParseCookies(request.cookie.value);
    var mine: seq<NameValue> := Taken(prefix, pairs);
    if |mine| == 0 { forwarded.cookie := None; } else { forwarded.cookie := Some(Print(mine)); }
  }

  // ---- printing and parsing ---------------------------------------------------------------------------------

  /** A name and a value that survive the header: every pair that section 4.1.1 of RFC 6265 lets a server send, and
      more. */
  predicate NameOk(name: string) {
    '=' !in name && ';' !in name && (name != "" ==> !Space(name[0]))
  }

  predicate ValueOk(value: string) {
    ';' !in value && (value != "" ==> !Space(value[|value| - 1]))
  }

  /** A `token` and a `cookie-value` as that section defines them. */
  predicate TokenChar(c: char) {
    '!' <= c <= '~' && c !in {'(', ')', '<', '>', '@', ',', ';', ':', '\\', '"', '/', '[', ']', '?', '=', '{', '}'}
  }

  predicate CookieOctet(c: char) {
    '!' <= c <= '~' && c !in {'"', ',', ';', '\\'}
  }

  predicate Standard(name: string, value: string) {
    && name != "" && (forall i :: 0 <= i < |name| ==> TokenChar(name[i]))
    && (forall i :: 0 <= i < |value| ==> CookieOctet(value[i]) || value[i] == '"')
  }

  lemma StandardPairsAreOk(name: string, value: string)
    requires Standard(name, value)
    ensures NameOk(name) && ValueOk(value)
  {
  }

  lemma TrimIsIdle(s: string)
    requires s == "" || (!Space(s[0]) && !Space(s[|s| - 1]))
    ensures Trim(s) == s
  {
  }

  lemma {:induction false} FindFirst(s: string, c: char, at: nat)
    requires at < |s| && s[at] == c && c !in s[..at]
    ensures Find(s, c) == at
  {
    if at > 0 {
      assert s[0] in s[..at];
      assert s[1..][..at - 1] == s[..at][1..];
      FindFirst(s[1..], c, at - 1);
    }
  }

  lemma FindNone(s: string, c: char)
    requires c !in s
    ensures Find(s, c) == |s|
  {
  }

  /** A printed pair reads back as itself. */
  lemma ShownReadsBack(pair: NameValue)
    requires NameOk(pair.0) && ValueOk(pair.1)
    ensures ';' !in Show(pair) && Trim(Show(pair)) == Show(pair) && Show(pair) != "" && PairOf(Show(pair)) == pair
  {
    var piece := Show(pair);
    assert piece[|pair.0|] == '=' && piece[..|pair.0|] == pair.0;
    assert pair.1 != "" ==> piece[|piece| - 1] == pair.1[|pair.1| - 1];
    assert pair.0 != "" ==> piece[0] == pair.0[0];
    TrimIsIdle(piece);
    FindFirst(piece, '=', |pair.0|);
    assert piece[|pair.0| + 1..] == pair.1;
  }

  /** The pieces of a joined header, the spaces of the separators aside. */
  function Spaced(pieces: seq<string>): seq<string> {
    if pieces == [] then [] else [" " + pieces[0]] + Spaced(pieces[1..])
  }

  lemma SplitOffFirst(first: string, rest: string)
    requires ';' !in first
    ensures Split(first + ";" + rest) == [first] + Split(rest)
  {
    var all := first + ";" + rest;
    assert all[..|first|] == first && all[|first| + 1..] == rest;
    FindFirst(all, ';', |first|);
  }

  lemma {:induction false} SplitOfJoin(pieces: seq<string>)
    requires pieces != [] && forall i :: 0 <= i < |pieces| ==> ';' !in pieces[i]
    ensures Split(Join(pieces)) == [pieces[0]] + Spaced(pieces[1..])
    ensures Split(" " + Join(pieces)) == Spaced(pieces)
    decreases |pieces|
  {
    var first := pieces[0];
    if |pieces| == 1 {
      FindNone(first, ';');
      FindNone(" " + first, ';');
      assert Spaced(pieces[1..]) == [];
    } else {
      var rest := " " + Join(pieces[1..]);
      assert Join(pieces) == first + ";" + rest;
      assert " " + Join(pieces) == " " + first + ";" + rest;
      SplitOffFirst(first, rest);
      SplitOffFirst(" " + first, rest);
      SplitOfJoin(pieces[1..]);
    }
  }

  lemma {:induction false} SpacesDoNotCount(pieces: seq<string>)
    ensures PairsOf(Spaced(pieces)) == PairsOf(pieces)
    decreases |pieces|
  {
    if pieces != [] {
      assert (" " + pieces[0])[1..] == pieces[0];
      SpacesDoNotCount(pieces[1..]);
    }
  }

  lemma ParseOfJoin(pieces: seq<string>)
    requires forall i :: 0 <= i < |pieces| ==> ';' !in pieces[i]
    ensures ParseCookies(Join(pieces)) == PairsOf(pieces)
  {
    if pieces == [] {
      assert Split("") == [""] && Trim("") == "" && PairsOf([""][1..]) == [];
    } else {
      SplitOfJoin(pieces);
      SpacesDoNotCount(pieces[1..]);
      PairsOfFirst(pieces[0], Spaced(pieces[1..]));
    }
  }

  lemma PairsOfFirst(first: string, rest: seq<string>)
    ensures PairsOf([first] + rest) == (if Trim(first) == "" then [] else [PairOf(Trim(first))]) + PairsOf(rest)
  {
    assert ([first] + rest)[1..] == rest;
  }

  ghost predicate PairsOk(pairs: seq<NameValue>) {
    forall i :: 0 <= i < |pairs| ==> NameOk(pairs[i].0) && ValueOk(pairs[i].1)
  }

  lemma {:induction false} ShownArePieces(pairs: seq<NameValue>)
    requires PairsOk(pairs)
    ensures forall i :: 0 <= i < |Shown(pairs)| ==> ';' !in Shown(pairs)[i]
    ensures PairsOf(Shown(pairs)) == pairs
    decreases |pairs|
  {
    if pairs != [] {
      ShownReadsBack(pairs[0]);
      ShownArePieces(pairs[1..]);
      assert Shown(pairs)[1..] == Shown(pairs[1..]);
    }
  }

  /** Printing a header and parsing it gives the pairs back, in order. */
  lemma ParseOfPrint(pairs: seq<NameValue>)
    requires PairsOk(pairs)
    ensures ParseCookies(Print(pairs)) == pairs
  {
    ShownArePieces(pairs);
    ParseOfJoin(Shown(pairs));
  }

  // ---- the jar ----------------------------------------------------------------------------------------------

  /** What the browser sends: this backend's cookies as they were stored, among whatever else it holds. */
  datatype Stored = Mine(name: string, value: string) | Other(piece: string)

  function Piece(backend: Backend, stored: Stored): string {
    match stored
    case Mine(name, value) => Show((JarPrefix(backend) + name, value))
    case Other(piece) => piece
  }

  function Pieces(backend: Backend, jar: seq<Stored>): seq<string> {
    if jar == [] then [] else [Piece(backend, jar[0])] + Pieces(backend, jar[1..])
  }

  /** The backend's own cookies, in order. */
  function Own(jar: seq<Stored>): seq<NameValue> {
    if jar == [] then []
    else (if jar[0].Mine? then [(jar[0].name, jar[0].value)] else []) + Own(jar[1..])
  }

  /** A piece of the header that is not this backend's: anything at all under another name. */
  predicate Foreign(backend: Backend, piece: string) {
    ';' !in piece && !StartsWith(PairOf(Trim(piece)).0, JarPrefix(backend))
  }

  ghost predicate JarOk(backend: Backend, jar: seq<Stored>) {
    forall i :: 0 <= i < |jar| ==>
      match jar[i]
      case Mine(name, value) => NameOk(name) && ValueOk(value)
      case Other(piece) => Foreign(backend, piece)
  }

  /** A backend's id is letters. */
  predicate LettersOnly(id: string) {
    forall i :: 0 <= i < |id| ==> 'a' <= id[i] <= 'z' || 'A' <= id[i] <= 'Z'
  }

  lemma PrefixedNameOk(backend: Backend, name: string)
    requires LettersOnly(backend.id) && NameOk(name)
    ensures NameOk(JarPrefix(backend) + name)
  {
    var prefixed := JarPrefix(backend) + name;
    assert prefixed[0] == 's';
    forall i | 0 <= i < |prefixed| ensures prefixed[i] != '=' && prefixed[i] != ';' {
      if |JarPrefix(backend)| <= i { assert prefixed[i] == name[i - |JarPrefix(backend)|]; }
    }
  }

  lemma {:induction false} OnlyMineIsTaken(backend: Backend, jar: seq<Stored>)
    requires LettersOnly(backend.id) && JarOk(backend, jar)
    ensures forall i :: 0 <= i < |Pieces(backend, jar)| ==> ';' !in Pieces(backend, jar)[i]
    ensures Taken(JarPrefix(backend), PairsOf(Pieces(backend, jar))) == Own(jar)
    ensures PairsOk(Own(jar))
    decreases |jar|
  {
    if jar != [] {
      OnlyMineIsTaken(backend, jar[1..]);
      var pieces, prefix := Pieces(backend, jar), JarPrefix(backend);
      assert pieces[1..] == Pieces(backend, jar[1..]);
      match jar[0]
      case Mine(name, value) =>
        PrefixedNameOk(backend, name);
        ShownReadsBack((prefix + name, value));
        TakenFirst(prefix, (prefix + name, value), PairsOf(pieces[1..]));
        assert (prefix + name)[|prefix|..] == name;
      case Other(piece) =>
        assert pieces[0] == piece && Own(jar) == Own(jar[1..]);
        if Trim(piece) != "" {
          TakenFirst(prefix, PairOf(Trim(piece)), PairsOf(pieces[1..]));
        } else {
          assert PairsOf(pieces) == PairsOf(pieces[1..]);
        }
    }
  }

  lemma TakenFirst(prefix: string, pair: NameValue, rest: seq<NameValue>)
    ensures Taken(prefix, [pair] + rest)
         == (if StartsWith(pair.0, prefix) then [(pair.0[|prefix|..], pair.1)] else []) + Taken(prefix, rest)
  {
    assert ([pair] + rest)[1..] == rest;
  }

  /** Parsed, filtered and stripped on the way out: of what the browser stored for it the backend reads exactly the
      pairs, in order, whatever else the header holds. With none of its own in the jar it gets no header. */
  lemma JarRoundTrip(backend: Backend, jar: seq<Stored>)
    requires LettersOnly(backend.id) && JarOk(backend, jar)
    ensures var forwarded := Outbound(backend, Join(Pieces(backend, jar)));
      if Own(jar) == [] then forwarded == None
      else forwarded == Some(Print(Own(jar))) && ParseCookies(forwarded.value) == Own(jar)
  {
    OnlyMineIsTaken(backend, jar);
    ParseOfJoin(Pieces(backend, jar));
    ParseOfPrint(Own(jar));
  }

  /** Two backends' prefixes are never prefixes of one another: no cookie of one can pass for the other's. */
  lemma PrefixesApart(a: Backend, b: Backend, name: string)
    requires LettersOnly(a.id) && LettersOnly(b.id) && a.id != b.id
    ensures !StartsWith(JarPrefix(b) + name, JarPrefix(a))
  {
    if JarPrefix(a) <= JarPrefix(b) + name {
      SamePrefixSameId(a.id, b.id, name);
    }
  }

  lemma SamePrefixSameId(a: string, b: string, name: string)
    requires LettersOnly(a) && LettersOnly(b) && "snake_" + a + "__" <= "snake_" + b + "__" + name
    ensures a == b
  {
    var p, s := "snake_" + a + "__", "snake_" + b + "__" + name;
    assert p <= s && p[6 + |a|] == '_' && s[6 + |b|] == '_';
    var m := if |a| <= |b| then |a| else |b|;
    assert forall i :: 6 <= i < 6 + |b| ==> s[i] == b[i - 6];
    assert forall i :: 6 <= i < 6 + |a| ==> p[i] == a[i - 6];
    assert p[6 + m] == s[6 + m];
    assert |a| == |b|;
    assert a == p[6..6 + |a|] && b == s[6..6 + |b|];
  }

  /** So another backend's cookies are foreign, and so is any cookie under a name without the prefix. */
  lemma OthersAreForeign(a: Backend, b: Backend, name: string, value: string)
    requires LettersOnly(a.id) && LettersOnly(b.id) && a.id != b.id && NameOk(name) && ValueOk(value)
    ensures Foreign(a, Piece(b, Mine(name, value)))
  {
    PrefixedNameOk(b, name);
    ShownReadsBack((JarPrefix(b) + name, value));
    PrefixesApart(a, b, name);
  }

  /** It takes the letters: with an underscore in an id one jar opens onto another. */
  lemma LettersAreNeeded()
    ensures var short, long := Backend("x", "/x"), Backend("x__y", "/y");
      StartsWith(JarPrefix(long) + "sid", JarPrefix(short))
  {
    var s := "snake_" + "x__y" + "__" + "sid";
    assert "snake_" + "x" + "__" == s[..9];
  }
}
