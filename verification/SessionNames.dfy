/** The mark that ties a database name to the run that owns it: printed, read back, and never put on twice. */
module SessionNames {
  import opened Rows

  const MARK := "__s"

  predicate IdChar(c: char) {
    'A' <= c <= 'Z' || 'a' <= c <= 'z' || '0' <= c <= '9'
  }

  /** `\A[A-Za-z0-9]{1,32}\Z`. */
  predicate ValidId(session: string) {
    1 <= |session| <= 32 && forall i :: 0 <= i < |session| ==> IdChar(session[i])
  }

  /** What `.+` takes: something, and no line break in it. */
  predicate Plain(name: string) {
    name != "" && '\n' !in name
  }

  /** The pattern read with the base ending at `k`. */
  predicate SplitsAt(name: string, k: nat) {
    k + |MARK| <= |name| && Plain(name[..k]) && name[k..k + |MARK|] == MARK && ValidId(name[k + |MARK|..])
  }

  /** `.+` is greedy: the longest base is tried first. */
  function LastSplit(name: string, k: nat): (found: Option<nat>)
    requires k <= |name|
    ensures found.Some? ==> found.value <= k && SplitsAt(name, found.value)
  {
    if SplitsAt(name, k) then Some(k) else if k == 0 then None else LastSplit(name, k - 1)
  }

  function SessionOf(name: string): Option<string> {
    match LastSplit(name, |name|)
    case Some(k) => Some(name[k + |MARK|..])
    case None => None
  }

  datatype Marked = Name(name: string) | BadId(session: string) | SomebodyElses(carried: string)

  function Scoped(name: string, session: Option<string>): Marked {
    match session
    case None => Name(name)
    case Some(s) =>
      if !ValidId(s) then BadId(s)
      else
        var carried := SessionOf(name);
        if carried == Some(s) then Name(name)
        else if carried.Some? then SomebodyElses(carried.value)
        else Name(name + MARK + s)
  }

  // ---- reading a mark ---------------------------------------------------------------------------------------

  /** The mark can only be where the last underscore is, so a name comes apart in one way, whatever its base. */
  lemma MarksAgree(a: string, s: string, b: string, t: string)
    requires a + MARK + s == b + MARK + t && ValidId(s) && ValidId(t)
    ensures a == b && s == t
  {
    var name := a + MARK + s;
    assert name[|a| + 1] == '_' && name[|b| + 1] == '_';
    forall i | |a| + 3 <= i < |name| ensures name[i] != '_' {
      assert name[i] == s[i - |a| - 3];
    }
    forall i | |b| + 3 <= i < |name| ensures name[i] != '_' {
      assert name[i] == t[i - |b| - 3];
    }
    assert name[|a| + 2] == 's' && name[|b| + 2] == 's';
    assert |a| == |b|;
    assert a == name[..|a|] && b == name[..|b|];
    assert s == name[|a| + 3..] && t == name[|b| + 3..];
  }

  lemma {:induction false} LastSplitFinds(name: string, k: nat)
    requires k <= |name|
    ensures LastSplit(name, k) == None ==> forall i :: 0 <= i <= k ==> !SplitsAt(name, i)
    decreases k
  {
    if !SplitsAt(name, k) && k > 0 { LastSplitFinds(name, k - 1); }
  }

  /** A name says whose it is exactly when it is a plain base, the mark and a valid id, and then it says one thing. */
  lemma SessionOfReadsTheMark(name: string, session: string)
    ensures SessionOf(name) == Some(session) <==>
      exists base :: Plain(base) && ValidId(session) && name == base + MARK + session
  {
    LastSplitFinds(name, |name|);
    if SessionOf(name) == Some(session) {
      var k := LastSplit(name, |name|).value;
      assert name == name[..k] + MARK + name[k + |MARK|..];
    }
    if base :| Plain(base) && ValidId(session) && name == base + MARK + session {
      assert name[..|base|] == base && name[|base|..|base| + |MARK|] == MARK && name[|base| + |MARK|..] == session;
      assert SplitsAt(name, |base|);
      var k := LastSplit(name, |name|).value;
      assert name == name[..k] + MARK + name[k + |MARK|..];
      MarksAgree(base, session, name[..k], name[k + |MARK|..]);
    }
  }

  // ---- marking ----------------------------------------------------------------------------------------------

  lemma CarriersArePlain(name: string)
    ensures SessionOf(name).Some? ==> Plain(name)
  {
    if SessionOf(name).Some? {
      var session := SessionOf(name).value;
      SessionOfReadsTheMark(name, session);
      var base :| Plain(base) && ValidId(session) && name == base + MARK + session;
      forall i | 0 <= i < |name| ensures name[i] != '\n' {
        var at := i - |base|;
        assert name[i] == if at < 0 then base[i] else if at < 3 then MARK[at] else session[at - 3];
      }
    }
  }

  /** The name that was marked reads back as the session it was marked with, exactly when it is not empty and has no
      line break. */
  lemma SessionOfInvertsScopedExactly(name: string, session: string)
    requires Scoped(name, Some(session)).Name?
    ensures SessionOf(Scoped(name, Some(session)).name) == Some(session) <==> Plain(name)
  {
    var marked := Scoped(name, Some(session)).name;
    SessionOfReadsTheMark(marked, session);
    CarriersArePlain(name);
    if SessionOf(name) == None && SessionOf(marked) == Some(session) {
      var base :| Plain(base) && ValidId(session) && marked == base + MARK + session;
      MarksAgree(base, session, name, session);
    }
  }

  /** Marking again changes nothing, on exactly the same names. */
  lemma ScopedIsIdempotentExactly(name: string, session: string)
    requires Scoped(name, Some(session)).Name?
    ensures var once := Scoped(name, Some(session)); Scoped(once.name, Some(session)) == once <==> Plain(name)
  {
    SessionOfInvertsScopedExactly(name, session);
    var marked := Scoped(name, Some(session)).name;
    assert |marked + MARK + session| > |marked|;
  }

  /** Two names that nobody has marked never meet, whatever the two sessions. */
  lemma ScopedIsInjective(a: string, s: string, b: string, t: string)
    requires SessionOf(a) == None && SessionOf(b) == None && ValidId(s) && ValidId(t)
    requires Scoped(a, Some(s)) == Scoped(b, Some(t))
    ensures a == b && s == t
  {
    MarksAgree(a, s, b, t);
  }

  /** It refuses bad ids, and names that carry the mark of another session, and nothing else. */
  lemma ScopedRefusesExactly(name: string, session: string)
    ensures !Scoped(name, Some(session)).Name? <==>
      !ValidId(session)
      || exists base, other :: Plain(base) && ValidId(other) && other != session && name == base + MARK + other
  {
    if SessionOf(name).Some? { SessionOfReadsTheMark(name, SessionOf(name).value); }
    if base, other :| Plain(base) && ValidId(other) && other != session && name == base + MARK + other {
      SessionOfReadsTheMark(name, other);
    }
  }

  /** The name ends in the mark of this session. */
  ghost predicate Carries(name: string, session: string) {
    ValidId(session) && exists base :: Plain(base) && name == base + "__s" + session
  }

  lemma CarriedIsRead(name: string, session: string)
    ensures SessionOf(name) == Some(session) <==> Carries(name, session)
  {
    SessionOfReadsTheMark(name, session);
  }

  /** Every answer, and when it comes: no session, no mark; a bad id is named back; the run's own mark is left alone;
      another's is refused, and named; and any other name gets the mark. */
  lemma ScopedAnswers(name: string, session: string)
    ensures Scoped(name, None) == Name(name)
    ensures Scoped(name, Some(session)) == BadId(session) <==> !ValidId(session)
    ensures forall other :: Scoped(name, Some(session)) == SomebodyElses(other) <==>
      ValidId(session) && other != session && Carries(name, other)
    ensures Carries(name, session) ==> Scoped(name, Some(session)) == Name(name)
    ensures ValidId(session) && (forall other :: !Carries(name, other)) ==>
      Scoped(name, Some(session)) == Name(name + "__s" + session)
  {
    forall other ensures SessionOf(name) == Some(other) <==> Carries(name, other) {
      CarriedIsRead(name, other);
    }
  }

  /** No name at all, marked twice. */
  lemma TheEmptyNameIsMarkedTwice()
    ensures Scoped("", Some("7")) == Name("__s7") && Scoped("__s7", Some("7")) == Name("__s7__s7")
  {
    ScopedIsIdempotentExactly("", "7");
    LastSplitFinds("", 0);
    assert !SplitsAt("", 0) && LastSplit("", 0) == None;
    assert "" + MARK + "7" == "__s7" && "__s7" + MARK + "7" == "__s7__s7";
    ScopedRefusesExactly("__s7", "7");
    if base, other :| Plain(base) && ValidId(other) && other != "7" && "__s7" == base + MARK + other {
      MarksAgree(base, other, "", "7");
    }
  }
}
