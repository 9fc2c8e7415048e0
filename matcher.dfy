/**
 * The fixed command-line pattern `cmdR` of the exporter,
 *
 *   airflow run (?P<dag>\w+) (?P<operator>\w+) (?P<execDate>\d\d\d\d-\d\d-\d\dT\d\d:\d\d:\d\d)
 *
 * matched by a hand-written scanner instead of a regular-expression engine,
 * and `findStringSubmatchMap`, which turns the leftmost match into a map from
 * group name to captured text.
 *
 * `\w` is ASCII `[0-9A-Za-z_]` and `\d` is ASCII `[0-9]`. A word group can
 * never swallow the space that follows it, so at a given start position the
 * pattern matches in at most one way, and the only freedom the engine has is
 * where the match starts: it reports the leftmost one.
 */
module Matcher {
  import opened Wrappers
  import opened Strings

  /** The literal text the pattern starts with (note the trailing space). */
  const Lead: string := "airflow run "

  /** Length of the timestamp group `dddd-dd-ddTdd:dd:dd`. */
  const DateLength: nat := 19

  /** The capture-group names of `cmdR` in order; index 0 is the whole match. */
  const SubexpNames: seq<string> := ["", "dag", "operator", "execDate"]

  predicate IsWordChar(c: char)
  {
    ('0' <= c <= '9') || ('A' <= c <= 'Z') || ('a' <= c <= 'z') || c == '_'
  }

  predicate IsDigit(c: char)
  {
    '0' <= c <= '9'
  }

  /** A string `\w+` matches in full. */
  predicate IsWord(w: string)
  {
    |w| > 0 && forall k :: 0 <= k < |w| ==> IsWordChar(w[k])
  }

  /** A string `\d\d\d\d-\d\d-\d\dT\d\d:\d\d:\d\d` matches in full. */
  predicate IsExecDate(d: string)
  {
    && |d| == DateLength
    && (forall k :: 0 <= k < DateLength && k !in {4, 7, 10, 13, 16} ==> IsDigit(d[k]))
    && d[4] == '-' && d[7] == '-' && d[10] == 'T' && d[13] == ':' && d[16] == ':'
  }

  /** The three named groups of one match. */
  datatype Captures = Captures(dag: string, operator: string, execDate: string)

  /** The text of the whole match that produced `c`. */
  function WholeMatch(c: Captures): string
  {
    Lead + c.dag + " " + c.operator + " " + c.execDate
  }

  /**
   * The pattern, read declaratively: it matches `s` at `i` with groups `c`
   * when each group is of its form and the text at `i` spells out the match.
   */
  predicate MatchesAt(s: string, i: nat, c: Captures)
  {
    IsWord(c.dag) && IsWord(c.operator) && IsExecDate(c.execDate) && OccursAt(s, WholeMatch(c), i)
  }

  /** No match of the pattern starts before `i`, and one with groups `c` starts at `i`. */
  ghost predicate IsLeftmostMatch(s: string, i: nat, c: Captures)
  {
    MatchesAt(s, i, c) && forall j: nat, c': Captures :: j < i ==> !MatchesAt(s, j, c')
  }

  /** The end of the run of word characters that starts at `j`. */
  function WordEnd(s: string, j: nat): (e: nat)
    requires j <= |s|
    ensures j <= e <= |s|
    decreases |s| - j
  {
    if j < |s| && IsWordChar(s[j]) then WordEnd(s, j + 1) else j
  }

  /** `WordEnd` stops at the first non-word character: every character before it is a word character. */
  lemma {:induction false} WordEndIsRun(s: string, j: nat)
    requires j <= |s|
    ensures forall k :: j <= k < WordEnd(s, j) ==> IsWordChar(s[k])
    ensures WordEnd(s, j) < |s| ==> !IsWordChar(s[WordEnd(s, j)])
    decreases |s| - j
  {
    if j < |s| && IsWordChar(s[j]) {
      WordEndIsRun(s, j + 1);
    }
  }

  /** The scanner at one start position: the groups of the match at `i`, if there is one. */
  function MatchAt(s: string, i: nat): Option<Captures>
  {
    if !OccursAt(s, Lead, i) then None else MatchDag(s, i + |Lead|)
  }

  /** The scanner after "airflow run ": a word, then a space, from `d0`. */
  function MatchDag(s: string, d0: nat): Option<Captures>
    requires d0 <= |s|
  {
    var d1 := WordEnd(s, d0);
    if d1 == d0 || d1 == |s| || s[d1] != ' ' then None
    else MatchOperator(s, s[d0..d1], d1 + 1)
  }

  /** The scanner after the dag id: a word, then a space, from `o0`. */
  function MatchOperator(s: string, dag: string, o0: nat): Option<Captures>
    requires o0 <= |s|
  {
    var o1 := WordEnd(s, o0);
    if o1 == o0 || o1 == |s| || s[o1] != ' ' then None
    else MatchDate(s, dag, s[o0..o1], o1 + 1)
  }

  /** The scanner after the task id: an execution date at `t0`. */
  function MatchDate(s: string, dag: string, operator: string, t0: nat): Option<Captures>
    requires t0 <= |s|
  {
    if t0 + DateLength <= |s| && IsExecDate(s[t0..t0 + DateLength])
    then Some(Captures(dag, operator, s[t0..t0 + DateLength]))
    else None
  }

  /** A maximal run of word characters ends where `WordEnd` says. */
  lemma {:induction false} WordEndOfRun(s: string, j: nat, e: nat)
    requires j <= e <= |s|
    requires forall k :: j <= k < e ==> IsWordChar(s[k])
    requires e < |s| ==> !IsWordChar(s[e])
    ensures WordEnd(s, j) == e
    decreases e - j
  {
    if j < e {
      WordEndOfRun(s, j + 1, e);
    }
  }

  /** An occurrence of a concatenation is two neighbouring occurrences. */
  lemma OccursSplit(s: string, x: string, y: string, i: nat)
    requires OccursAt(s, x + y, i)
    ensures OccursAt(s, x, i) && OccursAt(s, y, i + |x|)
  {
    assert s[i..i + |x|] == s[i..i + |x + y|][..|x|] == x;
    assert s[i + |x|..i + |x| + |y|] == s[i..i + |x + y|][|x|..] == y;
  }

  /** The text of a match splits into its parts at the expected offsets. */
  lemma WholeMatchParts(s: string, i: nat, c: Captures)
    requires OccursAt(s, WholeMatch(c), i)
    ensures OccursAt(s, Lead, i)
    ensures OccursAt(s, c.dag, i + |Lead|)
    ensures s[i + |Lead| + |c.dag|] == ' '
    ensures OccursAt(s, c.operator, i + |Lead| + |c.dag| + 1)
    ensures s[i + |Lead| + |c.dag| + 1 + |c.operator|] == ' '
    ensures OccursAt(s, c.execDate, i + |Lead| + |c.dag| + 1 + |c.operator| + 1)
  {
    var sp1 := i + |Lead| + |c.dag|;
    var sp2 := sp1 + 1 + |c.operator|;
    OccursSplit(s, Lead + c.dag + " " + c.operator + " ", c.execDate, i);
    OccursSplit(s, Lead + c.dag + " " + c.operator, " ", i);
    OccursSplit(s, Lead + c.dag + " ", c.operator, i);
    OccursSplit(s, Lead + c.dag, " ", i);
    OccursSplit(s, Lead, c.dag, i);
    assert s[sp1..sp1 + 1][0] == s[sp1];
    assert s[sp2..sp2 + 1][0] == s[sp2];
  }

  /** Two neighbouring occurrences make one occurrence of the concatenation. */
  lemma OccursConcat(s: string, x: string, y: string, i: nat)
    requires OccursAt(s, x, i) && OccursAt(s, y, i + |x|)
    ensures OccursAt(s, x + y, i)
  {
  }

  /** The runs the scanner cuts out are words. */
  lemma WordEndWord(s: string, j: nat)
    requires j <= |s| && j < WordEnd(s, j)
    ensures IsWord(s[j..WordEnd(s, j)])
  {
    var e := WordEnd(s, j);
    WordEndIsRun(s, j);
    forall k | 0 <= k < e - j
      ensures IsWordChar(s[j..e][k])
    {
      assert s[j..e][k] == s[j + k];
    }
  }

  /** What the operator stage reports is a task id, a space and a date, in that order from `o0`. */
  lemma MatchOperatorSound(s: string, dag: string, o0: nat, c: Captures)
    requires o0 <= |s| && MatchOperator(s, dag, o0) == Some(c)
    ensures c.dag == dag && IsWord(c.operator) && IsExecDate(c.execDate)
    ensures OccursAt(s, c.operator, o0)
    ensures OccursAt(s, " ", o0 + |c.operator|)
    ensures OccursAt(s, c.execDate, o0 + |c.operator| + 1)
  {
    var o1 := WordEnd(s, o0);
    WordEndWord(s, o0);
    assert s[o1..o1 + 1] == [s[o1]];
  }

  /** What the dag stage reports is a dag id, a space, a task id, a space and a date, in that order from `d0`. */
  lemma MatchDagSound(s: string, d0: nat, c: Captures)
    requires d0 <= |s| && MatchDag(s, d0) == Some(c)
    ensures IsWord(c.dag) && IsWord(c.operator) && IsExecDate(c.execDate)
    ensures OccursAt(s, c.dag, d0)
    ensures OccursAt(s, " ", d0 + |c.dag|)
    ensures OccursAt(s, c.operator, d0 + |c.dag| + 1)
    ensures OccursAt(s, " ", d0 + |c.dag| + 1 + |c.operator|)
    ensures OccursAt(s, c.execDate, d0 + |c.dag| + 1 + |c.operator| + 1)
  {
    var d1 := WordEnd(s, d0);
    WordEndWord(s, d0);
    assert s[d1..d1 + 1] == [s[d1]];
    MatchOperatorSound(s, s[d0..d1], d1 + 1, c);
  }

  /** What the scanner reports at `i` is a match of the pattern there. */
  lemma MatchAtSound(s: string, i: nat, c: Captures)
    requires MatchAt(s, i) == Some(c)
    ensures MatchesAt(s, i, c)
  {
    var d0 := i + |Lead|;
    MatchDagSound(s, d0, c);
    OccursConcat(s, Lead, c.dag, i);
    OccursConcat(s, Lead + c.dag, " ", i);
    OccursConcat(s, Lead + c.dag + " ", c.operator, i);
    OccursConcat(s, Lead + c.dag + " " + c.operator, " ", i);
    OccursConcat(s, Lead + c.dag + " " + c.operator + " ", c.execDate, i);
  }

  /** A word that occurs at `j` and is followed by a non-word character is the run `WordEnd` finds. */
  lemma WordAt(s: string, j: nat, w: string)
    requires OccursAt(s, w, j) && IsWord(w)
    requires j + |w| < |s| && !IsWordChar(s[j + |w|])
    ensures WordEnd(s, j) == j + |w|
  {
    forall k | j <= k < j + |w|
      ensures IsWordChar(s[k])
    {
      assert s[j..j + |w|][k - j] == w[k - j];
    }
    WordEndOfRun(s, j, j + |w|);
  }

  /** A word and a space at `d0` take the dag stage on to the operator stage with that word as dag id. */
  lemma DagStep(s: string, d0: nat, dag: string)
    requires OccursAt(s, dag, d0) && IsWord(dag)
    requires d0 + |dag| < |s| && s[d0 + |dag|] == ' '
    ensures MatchDag(s, d0) == MatchOperator(s, dag, d0 + |dag| + 1)
  {
    WordAt(s, d0, dag);
  }

  /** A word and a space at `o0` take the operator stage on to the date stage with that word as task id. */
  lemma OperatorStep(s: string, dag: string, o0: nat, operator: string)
    requires OccursAt(s, operator, o0) && IsWord(operator)
    requires o0 + |operator| < |s| && s[o0 + |operator|] == ' '
    ensures MatchOperator(s, dag, o0) == MatchDate(s, dag, operator, o0 + |operator| + 1)
  {
    WordAt(s, o0, operator);
  }

  /** An execution date at `t0` completes the match. */
  lemma DateStep(s: string, dag: string, operator: string, t0: nat, execDate: string)
    requires OccursAt(s, execDate, t0) && IsExecDate(execDate)
    ensures MatchDate(s, dag, operator, t0) == Some(Captures(dag, operator, execDate))
  {
  }

  /** A dag id, a space, a task id, a space and a date from `d0` are found by the dag stage. */
  lemma MatchDagComplete(s: string, d0: nat, c: Captures)
    requires IsWord(c.dag) && IsWord(c.operator) && IsExecDate(c.execDate)
    requires OccursAt(s, c.dag, d0)
    requires d0 + |c.dag| < |s| && s[d0 + |c.dag|] == ' '
    requires OccursAt(s, c.operator, d0 + |c.dag| + 1)
    requires d0 + |c.dag| + 1 + |c.operator| < |s| && s[d0 + |c.dag| + 1 + |c.operator|] == ' '
    requires OccursAt(s, c.execDate, d0 + |c.dag| + 1 + |c.operator| + 1)
    ensures MatchDag(s, d0) == Some(c)
  {
    var o0 := d0 + |c.dag| + 1;
    var t0 := o0 + |c.operator| + 1;
    calc {
      MatchDag(s, d0);
      { DagStep(s, d0, c.dag); }
      MatchOperator(s, c.dag, o0);
      { OperatorStep(s, c.dag, o0, c.operator); }
      MatchDate(s, c.dag, c.operator, t0);
      { DateStep(s, c.dag, c.operator, t0, c.execDate); }
      Some(Captures(c.dag, c.operator, c.execDate));
    }
  }

  /** A match of the pattern at `i` is found by the scanner there. */
  lemma MatchAtComplete(s: string, i: nat, c: Captures)
    requires MatchesAt(s, i, c)
    ensures MatchAt(s, i) == Some(c)
  {
    WholeMatchParts(s, i, c);
    MatchDagComplete(s, i + |Lead|, c);
  }

  /**
   * The scanner agrees with the pattern in both directions: it reports groups
   * `c` at `i` exactly when the pattern matches there with those groups.
   * In particular the match at a position is unique.
   */
  lemma MatchAtCorrect(s: string, i: nat, c: Captures)
    ensures MatchAt(s, i) == Some(c) <==> MatchesAt(s, i, c)
  {
    if MatchAt(s, i) == Some(c) {
      MatchAtSound(s, i, c);
    }
    if MatchesAt(s, i, c) {
      MatchAtComplete(s, i, c);
    }
  }

  /** The leftmost match at or after position `i`. */
  function FindFrom(s: string, i: nat): Option<(nat, Captures)>
    decreases |s| + 1 - i
  {
    if i > |s| then None
    else match MatchAt(s, i)
      case Some(c) => Some((i, c))
      case None => FindFrom(s, i + 1)
  }

  /** `cmdR.FindStringSubmatch(s)` as groups: those of the leftmost match, if any. */
  function FindSubmatch(s: string): Option<Captures>
  {
    match FindFrom(s, 0)
    case Some((_, c)) => Some(c)
    case None => None
  }

  /** `cmdR.FindStringSubmatch(s)` as Go returns it: the whole match, then each group in order. */
  function FindStringSubmatch(s: string): (groups: Option<seq<string>>)
    ensures groups.None? <==> forall i: nat, c: Captures :: !MatchesAt(s, i, c)
    ensures groups.Some? ==> |groups.value| == |SubexpNames|
    ensures groups.Some? ==> exists i: nat ::
      && IsLeftmostMatch(s, i, Captures(groups.value[1], groups.value[2], groups.value[3]))
      && OccursAt(s, groups.value[0], i)
    ensures groups.Some? ==> groups.value[0] == WholeMatch(Captures(groups.value[1], groups.value[2], groups.value[3]))
  {
    FindSubmatchNone(s);
    match FindSubmatch(s)
    case Some(c) =>
      FindSubmatchIsLeftmost(s, c);
      var groups := [WholeMatch(c), c.dag, c.operator, c.execDate];
      assert Captures(groups[1], groups[2], groups[3]) == c;
      assert forall i: nat :: IsLeftmostMatch(s, i, c) ==> OccursAt(s, groups[0], i);
      Some(groups)
    case None => None
  }

  lemma {:induction false} FindFromCorrect(s: string, i: nat)
    ensures FindFrom(s, i).None? ==> forall j: nat, c: Captures :: i <= j ==> !MatchesAt(s, j, c)
    ensures FindFrom(s, i).Some? ==>
      var (j, c) := FindFrom(s, i).value;
      i <= j && MatchesAt(s, j, c) && forall k: nat, c': Captures :: i <= k < j ==> !MatchesAt(s, k, c')
    decreases |s| + 1 - i
  {
    if i > |s| {
      forall j: nat, c: Captures | i <= j
        ensures !MatchesAt(s, j, c)
      {
        assert |WholeMatch(c)| > 0;
      }
    } else if MatchAt(s, i).None? {
      forall c: Captures
        ensures !MatchesAt(s, i, c)
      {
        MatchAtCorrect(s, i, c);
      }
      FindFromCorrect(s, i + 1);
    } else {
      MatchAtSound(s, i, MatchAt(s, i).value);
    }
  }

  /**
   * `FindSubmatch` reports groups `c` exactly when the leftmost match of the
   * pattern has those groups; this need not be the first occurrence of
   * the text "airflow run".
   */
  lemma FindSubmatchIsLeftmost(s: string, c: Captures)
    ensures FindSubmatch(s) == Some(c) <==> exists i: nat :: IsLeftmostMatch(s, i, c)
  {
    FindFromCorrect(s, 0);
    if FindSubmatch(s) == Some(c) {
      var (i, _) := FindFrom(s, 0).value;
      assert IsLeftmostMatch(s, i, c);
    }
    if i: nat :| IsLeftmostMatch(s, i, c) {
      match FindFrom(s, 0)
      case None =>
        assert false;
      case Some((j, c')) =>
        assert !(j < i) && !(i < j);
        MatchAtCorrect(s, i, c);
        MatchAtCorrect(s, i, c');
    }
  }

  /** `FindSubmatch` reports no match exactly when the pattern matches nowhere in `s`. */
  lemma FindSubmatchNone(s: string)
    ensures FindSubmatch(s).None? <==> forall i: nat, c: Captures :: !MatchesAt(s, i, c)
  {
    FindFromCorrect(s, 0);
  }

  /** The map built from a match: one entry per named group, holding its text. */
  function CaptureMap(c: Captures): map<string, string>
  {
    map["dag" := c.dag, "operator" := c.operator, "execDate" := c.execDate]
  }

  /** What `findStringSubmatchMap(cmdR, s)` returns: the empty map when nothing matches. */
  function SubmatchMap(s: string): map<string, string>
  {
    match FindSubmatch(s)
    case None => map[]
    case Some(c) => CaptureMap(c)
  }

  /** The entries written for the first `n` group names, skipping the whole match and unnamed groups. */
  function NamedCaptures(names: seq<string>, groups: seq<string>, n: nat): map<string, string>
    requires n <= |names| <= |groups|
  {
    if n == 0 then map[]
    else
      var m := NamedCaptures(names, groups, n - 1);
      if n - 1 == 0 || names[n - 1] == "" then m else m[names[n - 1] := groups[n - 1]]
  }

  /** `findStringSubmatchMap(cmdR, s)`: fills the map group by group from the leftmost match. */
  method FindStringSubmatchMap(s: string) returns (captures: map<string, string>)
    ensures captures == SubmatchMap(s)
  {
    captures := map[];
    var found := FindStringSubmatch(s);
    if found.None? {
      return;
    }
    var groups := found.value;
    for i := 0 to |SubexpNames|
      invariant captures == NamedCaptures(SubexpNames, groups, i)
    {
      var name := SubexpNames[i];
      if i == 0 || name == "" {
        continue;
      }
      captures := captures[name := groups[i]];
    }
    var c := FindSubmatch(s).value;
    assert groups == [WholeMatch(c), c.dag, c.operator, c.execDate];
    assert NamedCaptures(SubexpNames, groups, 1) == map[];
    assert NamedCaptures(SubexpNames, groups, 2) == map["dag" := c.dag];
    assert NamedCaptures(SubexpNames, groups, 3) == map["dag" := c.dag, "operator" := c.operator];
  }

  /**
   * The capture map is empty exactly when the pattern matches nowhere;
   * otherwise its keys are exactly the three group names and its values are
   * the groups of the leftmost match: two word tokens and a timestamp.
   */
  lemma SubmatchMapShape(s: string)
    ensures SubmatchMap(s) == map[] <==> forall i: nat, c: Captures :: !MatchesAt(s, i, c)
    ensures SubmatchMap(s) != map[] ==>
      && SubmatchMap(s).Keys == {"dag", "operator", "execDate"}
      && exists i: nat :: IsLeftmostMatch(s, i, Captures(SubmatchMap(s)["dag"], SubmatchMap(s)["operator"], SubmatchMap(s)["execDate"]))
    ensures SubmatchMap(s) != map[] ==>
      IsWord(SubmatchMap(s)["dag"]) && IsWord(SubmatchMap(s)["operator"]) && IsExecDate(SubmatchMap(s)["execDate"])
  {
    FindSubmatchNone(s);
    match FindSubmatch(s)
    case None =>
    case Some(c) =>
      assert "dag" in CaptureMap(c);
      FindSubmatchIsLeftmost(s, c);
      assert Captures(SubmatchMap(s)["dag"], SubmatchMap(s)["operator"], SubmatchMap(s)["execDate"]) == c;
  }

  /** Positions where nothing matches can be skipped by the leftmost search. */
  lemma {:induction false} FindFromSkip(s: string, i: nat, k: nat)
    requires i <= k <= |s|
    requires forall j :: i <= j < k ==> MatchAt(s, j).None?
    ensures FindFrom(s, i) == FindFrom(s, k)
    decreases k - i
  {
    if i < k {
      FindFromSkip(s, i + 1, k);
    }
  }

  /** A command line that starts with a match of the pattern yields the groups of that match. */
  lemma MatchAtStart(c: Captures, rest: string)
    requires IsWord(c.dag) && IsWord(c.operator) && IsExecDate(c.execDate)
    ensures FindSubmatch(WholeMatch(c) + rest) == Some(c)
  {
    var s := WholeMatch(c) + rest;
    assert s[0..|WholeMatch(c)|] == WholeMatch(c);
    MatchAtComplete(s, 0, c);
  }

  /**
   * An example: the command line of a task instance yields its dag id, task id
   * and execution date.
   */
  lemma ExampleCommandLine()
    ensures FindSubmatch("airflow run " + "my_dag" + " " + "extract_op" + " " + "2024-01-02T03:04:05" + " --raw ")
         == Some(Captures("my_dag", "extract_op", "2024-01-02T03:04:05"))
  {
    var c := Captures("my_dag", "extract_op", "2024-01-02T03:04:05");
    assert IsWord(c.dag) && IsWord(c.operator) by {
      assert forall k :: 0 <= k < |c.dag| ==> IsWordChar(c.dag[k]);
      assert forall k :: 0 <= k < |c.operator| ==> IsWordChar(c.operator[k]);
    }
    assert IsExecDate(c.execDate) by {
      var d := c.execDate;
      assert forall k :: 0 <= k < DateLength && k !in {4, 7, 10, 13, 16} ==> IsDigit(d[k]);
    }
    MatchAtStart(c, " --raw ");
  }

  /** In "airflow run x airflow run ...", no match starts at 0: "x" and "airflow" are followed by "run", not a date. */
  lemma NoMatchAtFirstMarker(w: string, rest: string)
    requires |Lead| <= |w| && w[..|Lead|] == Lead
    ensures MatchAt(Lead + "x " + w + rest, 0) == None
  {
    var s := Lead + "x " + w + rest;
    assert s[..12] == Lead;
    assert s[12..13] == "x" && s[13] == ' ';
    assert s[14..26] == w[..|Lead|] == Lead;
    assert s[14..21] == Lead[..7] == "airflow";
    assert s[21] == Lead[7] == ' ' && s[22] == Lead[8] == 'r';
    assert IsWord("x") && IsWord("airflow");
    calc {
      MatchAt(s, 0);
      MatchDag(s, 12);
      { DagStep(s, 12, "x"); }
      MatchOperator(s, "x", 14);
      { OperatorStep(s, "x", 14, "airflow"); }
      MatchDate(s, "x", "airflow", 22);
      { if 22 + DateLength <= |s| { assert s[22..22 + DateLength][0] == 'r'; } }
      None;
    }
  }

  /** No match starts at a character other than 'a'. */
  lemma NoLeadAt(s: string, j: nat)
    requires j < |s| && s[j] != 'a'
    ensures MatchAt(s, j) == None
  {
  }

  /**
   * The leftmost match need not start at the first "airflow run": in
   * "airflow run x airflow run <dag> <task> <date>..." the text at 0 is
   * followed by "x airflow run", which the pattern rejects, so the match is
   * the one that starts at 14.
   */
  lemma LeftmostNotFirstMarker(c: Captures, rest: string)
    requires IsWord(c.dag) && IsWord(c.operator) && IsExecDate(c.execDate)
    ensures OccursAt(Lead + "x " + WholeMatch(c) + rest, "airflow run", 0)
    ensures MatchAt(Lead + "x " + WholeMatch(c) + rest, 0) == None
    ensures FindSubmatch(Lead + "x " + WholeMatch(c) + rest) == Some(c)
  {
    var w := WholeMatch(c);
    var s := Lead + "x " + w + rest;
    assert s[..11] == Lead[..11] == "airflow run";
    assert w[..|Lead|] == Lead;
    NoMatchAtFirstMarker(w, rest);
    var head := Lead + "x ";
    assert 'a' !in head[1..];
    forall j | 1 <= j < 14
      ensures MatchAt(s, j).None?
    {
      assert s[j] == head[1..][j - 1];
      NoLeadAt(s, j);
    }
    FindFromSkip(s, 0, 14);
    assert s[14..14 + |w|] == w;
    MatchAtComplete(s, 14, c);
  }
}
