/** What the verification of the panel's findings promises: what is reported, and what is on file for the next launch. */
module PanelVerdicts {
  import opened AppendFile
  import opened Options
  import opened Ordering
  import opened PanelReview

  // ---------------------------------------------------------------- what is reported

  predicate Refuted(f: Finding, key: Finding -> string, verdicts: map<string, Option<bool>>) {
    key(f) in verdicts && verdicts[key(f)] == Some(false)
  }

  function FindingsIn(checked: seq<Checked>): seq<Finding> {
    seq(|checked|, i requires 0 <= i < |checked| => checked[i].finding)
  }

  /** Exactly the refuted findings are dropped, and each other one carries its verdict. */
  lemma {:induction false} DropsExactlyRefuted(findings: seq<Finding>, key: Finding -> string,
                                               verdicts: map<string, Option<bool>>)
    ensures var checked := Surviving(findings, key, verdicts);
      && (forall f :: f in FindingsIn(checked) <==> f in findings && !Refuted(f, key, verdicts))
      && (forall c :: c in checked ==>
           c.holds != Some(false) && c.holds == if key(c.finding) in verdicts then verdicts[key(c.finding)] else None)
  {
    if findings != [] {
      var most, last := findings[..|findings| - 1], findings[|findings| - 1];
      DropsExactlyRefuted(most, key, verdicts);
      assert findings == most + [last];
      var before := Surviving(most, key, verdicts);
      if !Refuted(last, key, verdicts) {
        var c := Checked(last, if key(last) in verdicts then verdicts[key(last)] else None);
        assert FindingsIn(before + [c]) == FindingsIn(before) + [last];
      } else {
        assert Surviving(findings, key, verdicts) == before;
      }
    }
  }

  // ---------------------------------------------------------------- what is on file

  /** The i-th question is about the key, and was answered usably. */
  predicate Answers(todo: seq<Finding>, key: Finding -> string, judge: nat -> Judgement, k: string, i: nat) {
    i < |todo| && key(todo[i]) == k && judge(i).Says?
  }

  /** Each answer is filed, and nothing else, in whatever order. */
  lemma FiledLines(todo: seq<Finding>, key: Finding -> string, judge: nat -> Judgement, when: nat -> real)
    ensures forall v :: v in NewVerdicts(todo, key, judge, when) <==>
      exists i: nat :: Answers(todo, key, judge, v.key, i) && judge(i).holds == v.holds
  {
    hide FilingOrder;
    var order, lines := FilingOrder(|todo|, judge, when), NewVerdicts(todo, key, judge, when);
    forall v | v in lines
      ensures exists i: nat :: Answers(todo, key, judge, v.key, i) && judge(i).holds == v.holds
    {
      var at :| 0 <= at < |lines| && lines[at] == v;
      assert order[at] in order && Answers(todo, key, judge, v.key, order[at]);
    }
    forall v: Verdict, i: nat | Answers(todo, key, judge, v.key, i) && judge(i).holds == v.holds
      ensures v in lines
    {
      assert i in order;
      var at :| 0 <= at < |order| && order[at] == i;
      assert lines[at] == v;
    }
  }

  /** If the lines about a key all say the same, that is on file; if there are none, what was on file stays. */
  lemma {:induction false} DecidedSame(rows: seq<Verdict>, lines: seq<Verdict>, k: string, holds: bool)
    requires forall v :: v in lines && v.key == k ==> v.holds == holds
    ensures var before, after := Decided(rows), Decided(rows + lines);
      if Verdict(k, holds) in lines then k in after && after[k] == holds
      else (k in after <==> k in before) && (k in after ==> after[k] == before[k])
  {
    if lines == [] {
      assert rows + lines == rows;
    } else {
      var most, last := lines[..|lines| - 1], lines[|lines| - 1];
      DecidedSame(rows, most, k, holds);
      assert (rows + lines)[..|rows + lines| - 1] == rows + most;
      assert lines == most + [last];
    }
  }

  /** Of two findings with one key the later decides what is reported. */
  lemma {:induction false} ReportedLast(onFile: map<string, bool>, todo: seq<Finding>, key: Finding -> string,
                                        judge: nat -> Judgement, k: string, m: nat)
    requires m < |todo| && key(todo[m]) == k && forall j :: m < j < |todo| ==> key(todo[j]) != k
    ensures var v := Verdicts(onFile, todo, key, judge);
      k in v && v[k] == Opinion(judge(m))
  {
    var n := |todo| - 1;
    if m < n {
      ReportedLast(onFile, todo[..n], key, judge, k, m);
    }
  }

  lemma {:induction false} ReportedOnFile(onFile: map<string, bool>, todo: seq<Finding>, key: Finding -> string,
                                          judge: nat -> Judgement, k: string)
    requires forall j :: 0 <= j < |todo| ==> key(todo[j]) != k
    ensures var v := Verdicts(onFile, todo, key, judge);
      (k in v <==> k in onFile) && (k in v ==> v[k] == Some(onFile[k]))
  {
    if todo != [] {
      ReportedOnFile(onFile, todo[..|todo| - 1], key, judge, k);
    }
  }

  /** When the worker of question i is the last, its line is the last. */
  lemma FiledLast(todo: seq<Finding>, key: Finding -> string, judge: nat -> Judgement, when: nat -> real, i: nat)
    requires i < |todo| && judge(i).Says? && forall j: nat :: j != i ==> when(j) < when(i)
    ensures var lines := NewVerdicts(todo, key, judge, when);
      lines != [] && lines[|lines| - 1] == Verdict(key(todo[i]), judge(i).holds)
  {
    var order := FilingOrder(|todo|, judge, when);
    FilingSorted(|todo|, judge, when);
    hide FilingOrder;
    assert i in order;
    var at :| 0 <= at < |order| && order[at] == i;
    assert order[|order| - 1] == i;
  }

  lemma FilingSorted(n: nat, judge: nat -> Judgement, when: nat -> real)
    ensures var order := FilingOrder(n, judge, when);
      forall a, b :: 0 <= a < b < |order| ==> when(order[a]) <= when(order[b])
  {
    SoonerOrder(when);
    var order := FilingOrder(n, judge, when);
    assert Sorted(Sooner(when), order);
    hide FilingOrder, StrictWeak, SortBy;
    forall a, b | 0 <= a < b < |order|
      ensures when(order[a]) <= when(order[b])
    {
      assert !Sooner(when)(order[b], order[a]);
    }
  }

  // ---------------------------------------------------------------- report and file

  /** The launch reports by the verdict that the next launch finds on file. */
  predicate Agree(reported: map<string, Option<bool>>, filed: map<string, bool>, k: string) {
    (if k in reported then reported[k] else None) == (if k in filed then Some(filed[k]) else None)
  }

  /** No question about the key was answered, or the last one asked was, and all the answers are the same. */
  ghost predicate OneAnswer(todo: seq<Finding>, key: Finding -> string, judge: nat -> Judgement, k: string) {
    || (forall i: nat :: !Answers(todo, key, judge, k, i))
    || (exists m: nat ::
          && Answers(todo, key, judge, k, m) && (forall j :: m < j < |todo| ==> key(todo[j]) != k)
          && (forall i: nat :: Answers(todo, key, judge, k, i) ==> judge(i).holds == judge(m).holds))
  }

  lemma {:induction false} UndecidedIs(findings: seq<Finding>, key: Finding -> string, onFile: map<string, bool>)
    ensures forall f :: f in Undecided(findings, key, onFile) <==> f in findings && key(f) !in onFile
  {
    if findings != [] {
      UndecidedIs(findings[..|findings| - 1], key, onFile);
      assert findings == findings[..|findings| - 1] + [findings[|findings| - 1]];
    }
  }

  /** The last question about the key; -1 if there is none. */
  ghost function LastAbout(todo: seq<Finding>, key: Finding -> string, k: string): (m: int)
    ensures -1 <= m < |todo| && (m >= 0 ==> key(todo[m]) == k)
    ensures forall j :: m < j < |todo| ==> key(todo[j]) != k
  {
    if todo == [] then -1 else
    var n := |todo| - 1;
    if key(todo[n]) == k then n else LastAbout(todo[..n], key, k)
  }

  lemma AgreesIfOneAnswer(rows: seq<Verdict>, todo: seq<Finding>, key: Finding -> string, judge: nat -> Judgement,
                          when: nat -> real, k: string)
    requires OneAnswer(todo, key, judge, k) && forall f :: f in todo ==> key(f) !in Decided(rows)
    ensures Agree(Verdicts(Decided(rows), todo, key, judge), Decided(rows + NewVerdicts(todo, key, judge, when)), k)
  {
    hide Decided, NewVerdicts, Verdicts;
    var lines := NewVerdicts(todo, key, judge, when);
    FiledLines(todo, key, judge, when);
    var m := LastAbout(todo, key, k);
    if m < 0 {
      DecidedSame(rows, lines, k, true);
      ReportedOnFile(Decided(rows), todo, key, judge, k);
    } else {
      assert todo[m] in todo;
      ReportedLast(Decided(rows), todo, key, judge, k, m);
      DecidedSame(rows, lines, k, judge(m).Says? && judge(m).holds);
      if judge(m).Says? {
        assert Answers(todo, key, judge, k, m);
      }
    }
  }

  lemma DecidedLast(rows: seq<Verdict>, lines: seq<Verdict>)
    requires lines != []
    ensures var last, filed := lines[|lines| - 1], Decided(rows + lines);
      last.key in filed && filed[last.key] == last.holds
  {
    assert (rows + lines)[|rows + lines| - 1] == lines[|lines| - 1];
  }

  /** An answer other than what is reported, if there is more than one. */
  lemma AnotherAnswer(todo: seq<Finding>, key: Finding -> string, judge: nat -> Judgement, k: string) returns (i: nat)
    requires !OneAnswer(todo, key, judge, k)
    ensures var m := LastAbout(todo, key, k);
      Answers(todo, key, judge, k, i) && m >= 0 && Opinion(judge(m)) != Some(judge(i).holds)
  {
    i :| Answers(todo, key, judge, k, i);
    var m := LastAbout(todo, key, k);
    if judge(m).Says? {
      assert Answers(todo, key, judge, k, m);
      i :| Answers(todo, key, judge, k, i) && judge(i).holds != judge(m).holds;
    }
  }

  /** Then some order of filing leaves another verdict on file than the one reported. */
  lemma OrderThatDisagrees(rows: seq<Verdict>, todo: seq<Finding>, key: Finding -> string, judge: nat -> Judgement, k: string)
    returns (when: nat -> real)
    requires !OneAnswer(todo, key, judge, k)
    ensures !Agree(Verdicts(Decided(rows), todo, key, judge), Decided(rows + NewVerdicts(todo, key, judge, when)), k)
  {
    hide NewVerdicts, Verdicts, Decided, OneAnswer;
    var i := AnotherAnswer(todo, key, judge, k);
    when := (j: nat) => if j == i then 1.0 else 0.0;
    FiledLast(todo, key, judge, when, i);
    DecidedLast(rows, NewVerdicts(todo, key, judge, when));
    ReportedLast(Decided(rows), todo, key, judge, k, LastAbout(todo, key, k));
  }

  /** No question is answered usably: nothing is filed. */
  predicate NothingFiled(todo: seq<Finding>, judge: nat -> Judgement) {
    forall i: nat :: i < |todo| ==> judge(i).Unsure?
  }

  /** The next append destroys a verdict on the key that is now read from an unterminated last line. */
  predicate Loses(verified: Log<Verdict>, k: string) {
    && verified.tail.Unended? && Sound(verified.lines) && verified.tail.row.key == k
    && var kept := Decided(UpToJunk(verified.lines)); !(k in kept && kept[k] == verified.tail.row.holds)
  }

  /** The last question about the key, if there is one, was answered usably. */
  ghost predicate LastAnswered(todo: seq<Finding>, key: Finding -> string, judge: nat -> Judgement, k: string) {
    LastAbout(todo, key, k) >= 0 && judge(LastAbout(todo, key, k)).Says?
  }

  /** Whether report and file agree about the key in every order of filing: if the file was clean, the answers must agree and
      the last question have one; if not, nothing may be filed, or no answer be lost and no verdict destroyed. */
  ghost predicate Consistent(verified: Log<Verdict>, todo: seq<Finding>, key: Finding -> string, judge: nat -> Judgement,
                             k: string)
  {
    if Clean(verified) then OneAnswer(todo, key, judge, k)
    else NothingFiled(todo, judge) || (!LastAnswered(todo, key, judge, k) && !Loses(verified, k))
  }

  lemma NothingFiledIff(todo: seq<Finding>, key: Finding -> string, judge: nat -> Judgement, when: nat -> real)
    ensures NewVerdicts(todo, key, judge, when) == [] <==> NothingFiled(todo, judge)
  {
    hide NewVerdicts;
    FiledLines(todo, key, judge, when);
    var lines := NewVerdicts(todo, key, judge, when);
    if lines != [] {
      var i: nat :| Answers(todo, key, judge, lines[0].key, i);
    }
    if i: nat :| i < |todo| && judge(i).Says? {
      assert Answers(todo, key, judge, key(todo[i]), i);
      assert Verdict(key(todo[i]), judge(i).holds) in lines;
    }
  }

  /** What is read after new lines: all of it in a clean file; in any other only what lay before the bad line. */
  lemma ReadAfter(verified: Log<Verdict>, lines: seq<Verdict>)
    ensures Read(AppendAll(verified, lines)) ==
      if lines == [] then Read(verified)
      else if Clean(verified) then Read(verified) + lines else UpToJunk(verified.lines)
  {
    if lines == [] {
    } else if Clean(verified) {
      AppendAllClean(verified, lines);
    } else {
      AppendAllUnclean(verified, lines);
    }
  }

  /** Of a file that is not clean, only an unterminated last line is read beyond the bad line or the end. */
  lemma LosesIff(verified: Log<Verdict>, k: string)
    ensures var before, kept := Decided(Read(verified)), Decided(UpToJunk(verified.lines));
      && kept.Keys <= before.Keys
      && ((if k in before then Some(before[k]) else None) == (if k in kept then Some(kept[k]) else None) <==> !Loses(verified, k))
  {
    var most := UpToJunk(verified.lines);
    if Sound(verified.lines) && verified.tail.Unended? {
      assert Read(verified) == most + [verified.tail.row];
      assert (most + [verified.tail.row])[..|most|] == most;
    } else {
      assert most + [] == most;
    }
    hide UpToJunk;
  }

  /** The verdict a launch reports by is the one on file afterwards, in whatever order its workers finish, exactly when the
      launch is consistent about the key. */
  lemma ReportAgreesIff(verified: Log<Verdict>, findings: seq<Finding>, key: Finding -> string, judge: nat -> Judgement, k: string)
    ensures var onFile := Decided(Read(verified));
      var todo := Undecided(findings, key, onFile);
      (forall when: nat -> real ::
         Agree(Verdicts(onFile, todo, key, judge), Decided(Read(AppendAll(verified, NewVerdicts(todo, key, judge, when)))), k))
      <==> Consistent(verified, todo, key, judge, k)
  {
    hide Decided, NewVerdicts, Verdicts, Undecided, Read, AppendAll, Clean, OneAnswer, Agree, NothingFiled, LastAnswered, Loses;
    var rows := Read(verified);
    var todo := Undecided(findings, key, Decided(rows));
    UndecidedIs(findings, key, Decided(rows));
    if Clean(verified) {
      CleanAgreesIff(verified, todo, key, judge, k);
    } else {
      forall when: nat -> real
        ensures Agree(Verdicts(Decided(rows), todo, key, judge), Decided(Read(AppendAll(verified, NewVerdicts(todo, key, judge, when)))), k)
          <==> Consistent(verified, todo, key, judge, k)
      {
        UncleanAgreesIff(verified, todo, key, judge, when, k);
      }
      var when := (j: nat) => 0.0;
      assert Agree(Verdicts(Decided(rows), todo, key, judge), Decided(Read(AppendAll(verified, NewVerdicts(todo, key, judge, when)))), k)
        <==> Consistent(verified, todo, key, judge, k);
    }
  }

  lemma CleanAgreesIff(verified: Log<Verdict>, todo: seq<Finding>, key: Finding -> string, judge: nat -> Judgement, k: string)
    requires Clean(verified) && forall f :: f in todo ==> key(f) !in Decided(Read(verified))
    ensures (forall when: nat -> real ::
        Agree(Verdicts(Decided(Read(verified)), todo, key, judge),
              Decided(Read(AppendAll(verified, NewVerdicts(todo, key, judge, when)))), k))
      <==> OneAnswer(todo, key, judge, k)
  {
    hide Decided, NewVerdicts, Verdicts, Read, AppendAll, Clean, OneAnswer, Agree;
    var rows := Read(verified);
    forall when: nat -> real
      ensures Read(AppendAll(verified, NewVerdicts(todo, key, judge, when))) == rows + NewVerdicts(todo, key, judge, when)
    {
      AppendAllClean(verified, NewVerdicts(todo, key, judge, when));
    }
    if OneAnswer(todo, key, judge, k) {
      forall when: nat -> real
        ensures Agree(Verdicts(Decided(rows), todo, key, judge), Decided(rows + NewVerdicts(todo, key, judge, when)), k)
      {
        AgreesIfOneAnswer(rows, todo, key, judge, when, k);
      }
    } else {
      var when := OrderThatDisagrees(rows, todo, key, judge, k);
      assert Read(AppendAll(verified, NewVerdicts(todo, key, judge, when))) == rows + NewVerdicts(todo, key, judge, when);
    }
  }

  lemma UncleanAgreesIff(verified: Log<Verdict>, todo: seq<Finding>, key: Finding -> string, judge: nat -> Judgement,
                         when: nat -> real, k: string)
    requires !Clean(verified) && forall f :: f in todo ==> key(f) !in Decided(Read(verified))
    ensures Agree(Verdicts(Decided(Read(verified)), todo, key, judge),
                  Decided(Read(AppendAll(verified, NewVerdicts(todo, key, judge, when)))), k)
      <==> NothingFiled(todo, judge) || (!LastAnswered(todo, key, judge, k) && !Loses(verified, k))
  {
    hide Decided, NewVerdicts, Verdicts, Read, AppendAll, Clean, Loses, UpToJunk;
    var onFile := Decided(Read(verified));
    NothingFiledIff(todo, key, judge, when);
    ReadAfter(verified, NewVerdicts(todo, key, judge, when));
    LosesIff(verified, k);
    var m := LastAbout(todo, key, k);
    if m < 0 {
      ReportedOnFile(onFile, todo, key, judge, k);
    } else {
      assert todo[m] in todo && k !in onFile;
      ReportedLast(onFile, todo, key, judge, k, m);
    }
  }

  predicate KeysDiffer(findings: seq<Finding>, key: Finding -> string) {
    forall i, j :: 0 <= i < |findings| && 0 <= j < |findings| && i != j ==> key(findings[i]) != key(findings[j])
  }

  /** For findings with different keys a clean file is enough. */
  lemma DistinctKeysAgreeIff(verified: Log<Verdict>, findings: seq<Finding>, key: Finding -> string, judge: nat -> Judgement,
                             k: string)
    requires KeysDiffer(findings, key)
    ensures var onFile := Decided(Read(verified));
      var todo := Undecided(findings, key, onFile);
      (forall when: nat -> real ::
         Agree(Verdicts(onFile, todo, key, judge), Decided(Read(AppendAll(verified, NewVerdicts(todo, key, judge, when)))), k))
      <==> || Clean(verified) || NothingFiled(todo, judge)
           || (!LastAnswered(todo, key, judge, k) && !Loses(verified, k))
  {
    hide Decided, Undecided, Read, Clean, NothingFiled, LastAnswered, Loses, Agree, NewVerdicts, Verdicts, AppendAll;
    var todo := Undecided(findings, key, Decided(Read(verified)));
    ReportAgreesIff(verified, findings, key, judge, k);
    UndecidedDistinct(findings, key, Decided(Read(verified)));
    if i: nat :| Answers(todo, key, judge, k, i) {
      assert forall j :: i < j < |todo| ==> key(todo[j]) != k;
      assert OneAnswer(todo, key, judge, k);
    }
  }

  lemma {:induction false} UndecidedDistinct(findings: seq<Finding>, key: Finding -> string, onFile: map<string, bool>)
    requires KeysDiffer(findings, key)
    ensures KeysDiffer(Undecided(findings, key, onFile), key)
  {
    if findings != [] {
      var n := |findings| - 1;
      var before := Undecided(findings[..n], key, onFile);
      UndecidedDistinct(findings[..n], key, onFile);
      UndecidedIs(findings[..n], key, onFile);
      hide Undecided;
      forall i | 0 <= i < |before|
        ensures key(before[i]) != key(findings[n])
      {
        assert before[i] in before && before[i] in findings[..n];
        var at :| 0 <= at < n && findings[at] == before[i];
      }
      assert KeysDiffer(before + [findings[n]], key);
    }
  }

  // ---------------------------------------------------------------- two findings with one key

  /** Reported although refuted on file: the next launch drops both. */
  ghost predicate ReportedThenDropped(f: Finding, key: Finding -> string, judge: nat -> Judgement, when: nat -> real) {
    var findings := [f, f];
    var todo := Undecided(findings, key, map[]);
    var filed := Decided(NewVerdicts(todo, key, judge, when));
    && FindingsIn(Surviving(findings, key, Verdicts(map[], todo, key, judge))) == findings
    && Undecided(findings, key, filed) == [] && Surviving(findings, key, Verdicts(filed, [], key, judge)) == []
  }

  lemma PairSurviving(f: Finding, key: Finding -> string, verdicts: map<string, Option<bool>>)
    requires key(f) in verdicts
    ensures var c := Checked(f, verdicts[key(f)]);
      Surviving([f, f], key, verdicts) == if Refuted(f, key, verdicts) then [] else [c, c]
  {
    assert [f, f][..1] == [f] && [f][..0] == [];
    assert Surviving([], key, verdicts) == [];
    assert Surviving([f], key, verdicts) == if Refuted(f, key, verdicts) then [] else [Checked(f, verdicts[key(f)])];
  }

  lemma PairUndecided(f: Finding, key: Finding -> string, onFile: map<string, bool>)
    ensures Undecided([f, f], key, onFile) == if key(f) in onFile then [] else [f, f]
  {
    assert [f, f][..1] == [f] && [f][..0] == [];
    assert Undecided([f], key, onFile) == if key(f) in onFile then [] else [f];
  }

  lemma PairDropped(f: Finding, key: Finding -> string, judge: nat -> Judgement, when: nat -> real)
    requires var filed := Decided(NewVerdicts([f, f], key, judge, when)); key(f) in filed && !filed[key(f)]
    requires Opinion(judge(1)) != Some(false)
    ensures ReportedThenDropped(f, key, judge, when)
  {
    hide Surviving, Undecided, Decided, NewVerdicts, Verdicts;
    var filed := Decided(NewVerdicts([f, f], key, judge, when));
    ReportedLast(map[], [f, f], key, judge, key(f), 1);
    ReportedOnFile(filed, [], key, judge, key(f));
    PairUndecided(f, key, map[]);
    PairUndecided(f, key, filed);
    PairSurviving(f, key, Verdicts(map[], [f, f], key, judge));
    PairSurviving(f, key, Verdicts(filed, [], key, judge));
    var c := Checked(f, Verdicts(map[], [f, f], key, judge)[key(f)]);
    assert FindingsIn([c, c]) == [f, f];
  }

  /** The first is refuted, the second answered unusably: both are reported. */
  lemma SharedKeyReportsRefuted(f: Finding, key: Finding -> string, judge: nat -> Judgement, when: nat -> real)
    requires judge(0) == Says(false) && judge(1) == Unsure
    ensures ReportedThenDropped(f, key, judge, when)
  {
    hide Decided, NewVerdicts, ReportedThenDropped;
    var lines := NewVerdicts([f, f], key, judge, when);
    FiledLines([f, f], key, judge, when);
    assert Answers([f, f], key, judge, key(f), 0);
    DecidedSame([], lines, key(f), false);
    assert [] + lines == lines;
    PairDropped(f, key, judge, when);
  }

  /** The first is refuted slowly, the second confirmed before that: both are reported as confirmed. */
  lemma OvertakenVerdict(f: Finding, key: Finding -> string, judge: nat -> Judgement)
    requires judge(0) == Says(false) && judge(1) == Says(true)
    ensures ReportedThenDropped(f, key, judge, (i: nat) => if i == 0 then 1.0 else 0.0)
  {
    hide NewVerdicts, ReportedThenDropped;
    var when := (i: nat) => if i == 0 then 1.0 else 0.0;
    FiledLast([f, f], key, judge, when, 0);
    PairDropped(f, key, judge, when);
  }

  // ---------------------------------------------------------------- later launches

  lemma {:induction false} DecidedGrows(rows: seq<Verdict>, more: seq<Verdict>)
    requires rows <= more
    ensures Decided(rows).Keys <= Decided(more).Keys
    decreases |more|
  {
    if rows != more {
      assert rows <= more[..|more| - 1];
      DecidedGrows(rows, more[..|more| - 1]);
    } else {
      assert rows == more;
    }
  }

  lemma LaunchedVerified(d: Disk, p: Plan, key: Finding -> string)
    ensures Grows(d.verified, Launched(d, p, key).0.verified)
    ensures p.partial.Unwritten? && Clean(d.verified) ==> Clean(Launched(d, p, key).0.verified)
  {
    hide Gathered, Complete, Grows, Clean, AppendCut, Read, Decided, Undecided, NewVerdicts, Surviving, Verdicts;
    GrowsNot(d.verified);
    var lines := NewLines(d, p, key);
    GrowsByCut(d.verified, lines, p.filed, p.partial);
  }

  /** However many launches follow, wherever they end: the verdict file only grows, once it is not clean none of its new lines
      are ever read, and it stays clean if no write to it ends inside a line. */
  lemma {:induction false} VerifiedGrows(d: Disk, plans: seq<Plan>, key: Finding -> string)
    ensures var after := Campaign(d, plans, key).verified;
      && Grows(d.verified, after)
      && (Clean(d.verified) && (forall p :: p in plans ==> p.partial.Unwritten?) ==> Clean(after))
  {
    hide Grows, Clean, Launched;
    if plans == [] {
      GrowsNot(d.verified);
    } else {
      var n := |plans| - 1;
      var before := Campaign(d, plans[..n], key);
      VerifiedGrows(d, plans[..n], key);
      LaunchedVerified(before, plans[n], key);
      GrowsOn(d.verified, before.verified, Launched(before, plans[n], key).0.verified);
    }
  }

  /** A verdict read before any bad line is final: no later launch, wherever launches end, asks about its key again. */
  lemma NeverAskedAgain(d: Disk, plans: seq<Plan>, findings: seq<Finding>, key: Finding -> string, f: Finding)
    requires key(f) in Decided(UpToJunk(d.verified.lines))
    ensures f !in Undecided(findings, key, Decided(Read(Campaign(d, plans, key).verified)))
  {
    hide Campaign, Decided, Undecided, UpToJunk, Read;
    var later := Campaign(d, plans, key).verified;
    VerifiedGrows(d, plans, key);
    UpToJunkGrows(d.verified.lines, later.lines);
    ReadBegins(later);
    DecidedGrows(UpToJunk(d.verified.lines), Read(later));
    UndecidedIs(findings, key, Decided(Read(later)));
  }

  lemma {:induction false} DecidedHas(rows: seq<Verdict>, v: Verdict)
    requires v in rows
    ensures v.key in Decided(rows)
  {
    if v != rows[|rows| - 1] {
      assert rows == rows[..|rows| - 1] + [rows[|rows| - 1]];
      DecidedHas(rows[..|rows| - 1], v);
    }
  }

  /** The launch gets to the verification. */
  predicate Verifies(d: Disk, p: Plan) {
    var g := Gathered(d.raw, d.done, p);
    g.alive && Complete(p.phase, p.files, DoneSet(g.done))
  }

  /** What a launch asks about if it gets there, and the verdicts it files then. */
  function Asked(d: Disk, p: Plan, key: Finding -> string): seq<Finding> {
    Undecided(Read(Gathered(d.raw, d.done, p).raw), key, Decided(Read(d.verified)))
  }

  function NewLines(d: Disk, p: Plan, key: Finding -> string): seq<Verdict> {
    NewVerdicts(Asked(d, p, key), key, p.judge, p.when)
  }

  /** How a launch ends: cut off while gathering or while filing verdicts, paused if something is left to gather, with a report
      otherwise.  Only a launch that gets to the verification touches the verdicts. */
  lemma LaunchEnds(d: Disk, p: Plan, key: Finding -> string)
    ensures var (after, r) := Launched(d, p, key);
      && (r.Cut? <==> !Gathered(d.raw, d.done, p).alive || (Verifies(d, p) && p.filed < |NewLines(d, p, key)|))
      && (r.Paused? <==> Gathered(d.raw, d.done, p).alive && !Verifies(d, p))
      && (r.Reported? <==> Verifies(d, p) && p.filed >= |NewLines(d, p, key)|)
      && (!Verifies(d, p) ==> after.verified == d.verified)
      && (r.Reported? ==> after.verified == AppendAll(d.verified, NewLines(d, p, key)))
  {
    hide Gathered, Complete, Read, Decided, Undecided, NewVerdicts, Surviving, Verdicts, AppendAll;
  }

  /** The questions among the first n that were answered usably. */
  function AnsweredAmong(n: nat, judge: nat -> Judgement): set<int> {
    set i | 0 <= i < n && judge(i).Says?
  }

  lemma AnsweredNext(n: nat, judge: nat -> Judgement)
    requires n > 0
    ensures |AnsweredAmong(n, judge)| == |AnsweredAmong(n - 1, judge)| + (if judge(n - 1).Says? then 1 else 0)
  {
    assert AnsweredAmong(n, judge) == AnsweredAmong(n - 1, judge) + (if judge(n - 1).Says? then {n - 1} else {});
  }

  lemma {:induction false} UsableCount(n: nat, judge: nat -> Judgement)
    ensures |Usable(n, judge)| == |AnsweredAmong(n, judge)|
  {
    if n == 0 {
      assert AnsweredAmong(0, judge) == {};
    } else {
      AnsweredNext(n, judge);
      hide AnsweredAmong;
      UsableCount(n - 1, judge);
    }
  }

  /** As many verdicts are filed as questions were answered usably. */
  lemma NewLinesCount(todo: seq<Finding>, key: Finding -> string, judge: nat -> Judgement, when: nat -> real)
    ensures |NewVerdicts(todo, key, judge, when)| == |AnsweredAmong(|todo|, judge)|
  {
    UsableCount(|todo|, judge);
    SameLength(FilingOrder(|todo|, judge, when), Usable(|todo|, judge));
    hide FilingOrder, Usable;
  }

  lemma SameLength(a: seq<nat>, b: seq<nat>)
    requires multiset(a) == multiset(b)
    ensures |a| == |b|
  {
    assert |multiset(a)| == |multiset(b)|;
  }

  /** The file of a launch holds at least the verdicts it got to file whole. */
  lemma FiledAtLeast(d: Disk, p: Plan, key: Finding -> string, n: nat)
    requires Verifies(d, p) && n <= |NewLines(d, p, key)| && n <= p.filed
    ensures AppendAll(d.verified, NewLines(d, p, key)[..n]).lines <= Launched(d, p, key).0.verified.lines
  {
    hide Gathered, Complete, Read, Decided, Undecided, NewVerdicts, Surviving, Verdicts, AppendAll, Wrote;
    var lines := NewLines(d, p, key);
    var whole := if p.filed < |lines| then p.filed else |lines|;
    assert lines[..whole][..n] == lines[..n] && lines[..n] + lines[n..whole] == lines[..whole] && lines[..|lines|] == lines;
    AppendAllJoin(d.verified, lines[..n], lines[n..whole]);
    AppendAllExtends(AppendAll(d.verified, lines[..n]), lines[n..whole]);
    if whole < |lines| {
      WroteRows(AppendAll(d.verified, lines[..whole]), lines[whole], p.partial);
    }
  }

  /** A verdict that a launch has filed whole settles its key exactly when the file was clean: then no later launch asks
      about it again; otherwise every later launch that verifies asks, and pays, again. */
  lemma SettledIffClean(d: Disk, p: Plan, more: seq<Plan>, key: Finding -> string, j: nat)
    requires Verifies(d, p) && j < |NewLines(d, p, key)| && j < p.filed
    ensures NewLines(d, p, key)[j].key in Decided(Read(Campaign(Launched(d, p, key).0, more, key).verified))
      <==> Clean(d.verified)
  {
    hide Launched, Verifies, NewLines, Decided, Campaign, Clean, Read, UpToJunk, AppendAll;
    var lines, d1 := NewLines(d, p, key), Launched(d, p, key).0;
    var later := Campaign(d1, more, key).verified;
    var now := AppendAll(d.verified, lines[..j + 1]);
    FiledAtLeast(d, p, key, j + 1);
    LaunchedVerified(d, p, key);
    VerifiedGrows(d1, more, key);
    GrowsOn(d.verified, d1.verified, later);
    if Clean(d.verified) {
      KeyFiled(d.verified, lines[..j + 1], lines[j]);
      UpToJunkGrows(now.lines, later.lines);
      ReadBegins(later);
      DecidedGrows(UpToJunk(now.lines), Read(later));
    } else {
      AppendAllLonger(d.verified, lines[..j + 1]);
      ReadUnsound(later);
      AskedKey(d, p, key, j);
      LosesIff(d.verified, lines[j].key);
    }
  }

  lemma KeyFiled(verified: Log<Verdict>, lines: seq<Verdict>, v: Verdict)
    requires Clean(verified) && v in lines
    ensures v.key in Decided(UpToJunk(AppendAll(verified, lines).lines))
  {
    AppendAllClean(verified, lines);
    var after := AppendAll(verified, lines);
    assert Read(after) == UpToJunk(after.lines);
    hide Decided, Read, UpToJunk, AppendAll, Clean;
    assert v in Read(verified) + lines;
    DecidedHas(Read(verified) + lines, v);
  }

  lemma ReadUnsound(log: Log<Verdict>)
    ensures !Sound(log.lines) ==> Read(log) == UpToJunk(log.lines)
  {
    assert UpToJunk(log.lines) + [] == UpToJunk(log.lines);
  }

  /** Only keys without a verdict on file are asked about. */
  lemma AskedKey(d: Disk, p: Plan, key: Finding -> string, j: nat)
    requires j < |NewLines(d, p, key)|
    ensures NewLines(d, p, key)[j].key !in Decided(Read(d.verified))
  {
    hide Decided, Read, NewVerdicts, Gathered, Undecided;
    var todo, v := Asked(d, p, key), NewLines(d, p, key)[j];
    FiledLines(todo, key, p.judge, p.when);
    assert v in NewLines(d, p, key);
    var i: nat :| Answers(todo, key, p.judge, v.key, i);
    UndecidedIs(Read(Gathered(d.raw, d.done, p).raw), key, Decided(Read(d.verified)));
    assert todo[i] in todo;
  }

  /** A verdict of a verification that files all its verdicts can be read back exactly when the file was clean. */
  lemma VerdictsFiledIff(verified: Log<Verdict>, findings: seq<Finding>, key: Finding -> string, judge: nat -> Judgement,
                         when: nat -> real, i: nat)
    requires i < |Undecided(findings, key, Decided(Read(verified)))| && judge(i).Says?
    ensures var todo := Undecided(findings, key, Decided(Read(verified)));
      key(todo[i]) in Decided(Read(AppendAll(verified, NewVerdicts(todo, key, judge, when)))) <==> Clean(verified)
  {
    hide Decided, Undecided, NewVerdicts, Read, UpToJunk, AppendAll, Clean;
    var todo := Undecided(findings, key, Decided(Read(verified)));
    var lines := NewVerdicts(todo, key, judge, when);
    var v := Verdict(key(todo[i]), judge(i).holds);
    FiledLines(todo, key, judge, when);
    assert Answers(todo, key, judge, v.key, i) && v in lines;
    ReadAfter(verified, lines);
    if Clean(verified) {
      DecidedHas(Read(verified) + lines, v);
    } else {
      UndecidedIs(findings, key, Decided(Read(verified)));
      assert todo[i] in todo;
      LosesIff(verified, v.key);
    }
  }

  /** After a torn verdict line, an answered finding is asked about again, however often it is answered. */
  lemma TornVerdictAskedAgain(f: Finding, key: Finding -> string, judge: nat -> Judgement, when: nat -> real)
    requires judge(0).Says?
    ensures var verified := Tear(Empty<Verdict>());
      var todo := Undecided([f], key, Decided(Read(verified)));
      && todo == [f]
      && Undecided([f], key, Decided(Read(AppendAll(verified, NewVerdicts(todo, key, judge, when))))) == [f]
  {
    hide NewVerdicts, AppendAll;
    var verified := Tear(Empty<Verdict>());
    assert Read(verified) == [] && Decided([]) == map[];
    assert [f][..0] == [] && Undecided([], key, map[]) == [];
    var todo := Undecided([f], key, map[]);
    assert todo == [f];
    VerdictsFiledIff(verified, [f], key, judge, when, 0);
    var after := Decided(Read(AppendAll(verified, NewVerdicts(todo, key, judge, when))));
    assert key(f) !in after && Undecided([], key, after) == [];
  }
}
