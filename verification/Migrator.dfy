/** Schema migrations: any number of concurrent runs, failing anywhere, apply a prefix of the sorted files once. */
module MigrationMachine {
  import opened Options

  datatype File = File(name: string, content: string)

  /** Byte-wise lexicographic order, Go's `<` on strings. */
  predicate Less(a: string, b: string) {
    b != [] && (a == [] || a[0] < b[0] || (a[0] == b[0] && Less(a[1..], b[1..])))
  }

  /** The names agree up to k, where a has ended or has the smaller character. */
  ghost predicate SmallerAt(a: string, b: string, k: nat) {
    k < |b| && k <= |a| && a[..k] == b[..k] && (k == |a| || a[k] < b[k])
  }

  lemma {:induction false} SmallerSomewhere(a: string, b: string)
    requires Less(a, b)
    ensures exists k: nat :: SmallerAt(a, b, k)
  {
    if a == [] || a[0] < b[0] {
      assert SmallerAt(a, b, 0);
    } else {
      SmallerSomewhere(a[1..], b[1..]);
      var k: nat :| SmallerAt(a[1..], b[1..], k);
      assert a[..k + 1] == [a[0]] + a[1..][..k] && b[..k + 1] == [b[0]] + b[1..][..k];
      assert SmallerAt(a, b, k + 1);
    }
  }

  lemma {:induction false} SmallerIsLess(a: string, b: string, k: nat)
    requires SmallerAt(a, b, k)
    ensures Less(a, b)
    decreases k
  {
    if k == 0 {
    } else {
      assert a[0] == a[..k][0] == b[..k][0] == b[0];
      assert a[1..][..k - 1] == a[..k][1..] && b[1..][..k - 1] == b[..k][1..];
      SmallerIsLess(a[1..], b[1..], k - 1);
    }
  }

  /** Names are compared at the first place where they differ. */
  lemma LessExactly(a: string, b: string)
    ensures Less(a, b) <==> exists k: nat :: SmallerAt(a, b, k)
  {
    if Less(a, b) { SmallerSomewhere(a, b); }
    forall k: nat | SmallerAt(a, b, k) ensures Less(a, b) { SmallerIsLess(a, b, k); }
  }

  lemma {:induction false} LessTotal(a: string, b: string)
    ensures Less(a, b) || Less(b, a) || a == b
    ensures !(Less(a, b) && Less(b, a)) && !Less(a, a)
  {
    if a != [] { LessTotal(a[1..], a[1..]); }
    if a != [] && b != [] {
      LessTotal(a[1..], b[1..]);
      if a[0] == b[0] && a[1..] == b[1..] {
        assert a == [a[0]] + a[1..] && b == [b[0]] + b[1..];
      }
    }
  }

  predicate Sorted(files: seq<File>) {
    forall i, j :: 0 <= i < j < |files| ==> !Less(files[j].name, files[i].name)
  }

  /** An open migration transaction: what the schema would be, and whether the version row is in. */
  datatype Work = Work(schema: Option<seq<string>>, recorded: bool)

  /** One call of the runner: the versions it read at first, its position, its transaction, and its result. */
  datatype Runner = Runner(applied: set<string>, next: nat, work: Option<Work>, result: Option<bool>)

  /** `schema` is the list of scripts whose effects are committed, in order; any effect of scripts is a fold of it. */
  datatype State = State(files: seq<File>, versions: seq<string>, schema: seq<string>, runners: map<nat, Runner>)

  datatype Label =
    | Start(r: nat)
    | Skip(r: nat)
    | Open(r: nat)
    | Execute(r: nat)
    | Record(r: nat)
    | Commit(r: nat, applied: bool, reported: bool)
    | Finish(r: nat)
    | Fail(r: nat)

  function Init(files: seq<File>): State {
    State(files, [], [], map[])
  }

  predicate Active(s: State, r: nat) {
    r in s.runners && s.runners[r].result.None?
  }

  predicate Between(s: State, r: nat) {
    Active(s, r) && s.runners[r].work.None? && s.runners[r].next < |s.files|
  }

  predicate Working(s: State, r: nat) {
    Active(s, r) && s.runners[r].work.Some? && s.runners[r].next < |s.files|
  }

  predicate Recorded(s: State, r: nat) {
    Working(s, r) && s.runners[r].work.value.schema.Some? && s.runners[r].work.value.recorded
  }

  function Target(s: State, r: nat): File
    requires r in s.runners && s.runners[r].next < |s.files|
  {
    s.files[s.runners[r].next]
  }

  /** An uncommitted version row makes others wait; a committed one is a duplicate key, which is a failure. */
  predicate CanRecord(s: State, r: nat) {
    && Working(s, r) && s.runners[r].work.value.schema.Some? && !s.runners[r].work.value.recorded
    && Target(s, r).name !in s.versions
    && forall q :: q in s.runners && q != r && Recorded(s, q) ==> Target(s, q).name != Target(s, r).name
  }

  predicate Enabled(s: State, l: Label) {
    match l
    case Start(r) => r !in s.runners
    case Skip(r) => Between(s, r) && Target(s, r).name in s.runners[r].applied
    case Open(r) => Between(s, r) && Target(s, r).name !in s.runners[r].applied
    case Execute(r) => Working(s, r) && s.runners[r].work.value.schema.None?
    case Record(r) => CanRecord(s, r)
    case Commit(r, applied, reported) => Recorded(s, r) && (reported ==> applied)
    case Finish(r) => Active(s, r) && s.runners[r].work.None? && s.runners[r].next == |s.files|
    case Fail(r) => Active(s, r)
  }

  function SetRunner(s: State, r: nat, q: Runner): State {
    s.(runners := s.runners[r := q])
  }

  function Apply(s: State, l: Label): State
    requires Enabled(s, l)
  {
    match l
    case Start(r) => SetRunner(s, r, Runner(set v | v in s.versions, 0, None, None))
    case Skip(r) => SetRunner(s, r, s.runners[r].(next := s.runners[r].next + 1))
    case Open(r) => SetRunner(s, r, s.runners[r].(work := Some(Work(None, false))))
    case Execute(r) =>
      SetRunner(s, r, s.runners[r].(work := Some(Work(Some(s.schema + [Target(s, r).content]), false))))
    case Record(r) => SetRunner(s, r, s.runners[r].(work := Some(s.runners[r].work.value.(recorded := true))))
    case Commit(r, applied, reported) => Closed(s, r, applied, reported)
    case Finish(r) => SetRunner(s, r, s.runners[r].(result := Some(true)))
    case Fail(r) => SetRunner(s, r, s.runners[r].(work := None, result := Some(false)))
  }

  /** A commit publishes the transaction's schema and version; a runner that saw an error stops. */
  function Closed(s: State, r: nat, applied: bool, reported: bool): State
    requires Recorded(s, r)
  {
    var q := s.runners[r];
    var q' := if reported then q.(work := None, next := q.next + 1) else q.(work := None, result := Some(false));
    var s' := SetRunner(s, r, q');
    if applied then s'.(versions := s.versions + [Target(s, r).name], schema := q.work.value.schema.value) else s'
  }

  predicate ValidRun(s: State, ls: seq<Label>)
    decreases |ls|
  {
    ls == [] || (Enabled(s, ls[0]) && ValidRun(Apply(s, ls[0]), ls[1..]))
  }

  function Run(s: State, ls: seq<Label>): State
    requires ValidRun(s, ls)
    decreases |ls|
  {
    if ls == [] then s else Run(Apply(s, ls[0]), ls[1..])
  }

  lemma {:induction false} RunSnoc(s: State, ls: seq<Label>, l: Label)
    requires ValidRun(s, ls) && Enabled(Run(s, ls), l)
    ensures ValidRun(s, ls + [l]) && Run(s, ls + [l]) == Apply(Run(s, ls), l)
    decreases |ls|
  {
    if ls == [] {
      assert ls + [l] == [l] && [l][1..] == [];
    } else {
      RunSnoc(Apply(s, ls[0]), ls[1..], l);
      assert (ls + [l])[1..] == ls[1..] + [l];
    }
  }

  /* ---------- The invariant ---------- */

  function Names(files: seq<File>): (r: seq<string>)
    ensures |r| == |files| && forall i :: 0 <= i < |files| ==> r[i] == files[i].name
  {
    seq(|files|, i requires 0 <= i < |files| => files[i].name)
  }

  function Contents(files: seq<File>): (r: seq<string>)
    ensures |r| == |files| && forall i :: 0 <= i < |files| ==> r[i] == files[i].content
  {
    seq(|files|, i requires 0 <= i < |files| => files[i].content)
  }

  ghost predicate Distinct(files: seq<File>) {
    forall i, j :: 0 <= i < j < |files| ==> files[i].name != files[j].name
  }

  /** The committed versions and schema are those of a prefix of the files. */
  ghost predicate Prefix(s: State) {
    && |s.versions| <= |s.files|
    && s.versions == Names(s.files[..|s.versions|]) && s.schema == Contents(s.files[..|s.versions|])
  }

  /** A runner never gets ahead of the database; if it has recorded its file, that file is the next one. */
  ghost predicate RunnerOk(s: State, q: Runner) {
    && q.next <= |s.files|
    && (q.result != Some(false) ==> q.next <= |s.versions|)
    && (q.result == Some(true) ==> q.next == |s.files|)
    && (forall v :: v in q.applied ==> v in s.versions)
    && (q.work.Some? ==> q.result.None? && q.next < |s.files|)
    && (q.work.Some? && q.work.value.schema.Some? ==>
          var m := |q.work.value.schema.value| - 1;
          && q.next <= m <= |s.versions| && m <= |s.files|
          && q.work.value.schema.value == Contents(s.files[..m]) + [s.files[q.next].content])
    && (q.work.Some? && q.work.value.recorded ==> q.work.value.schema.Some? && q.next == |s.versions|)
  }

  ghost predicate Inv(s: State) {
    && Distinct(s.files) && Prefix(s)
    && (forall r :: r in s.runners ==> RunnerOk(s, s.runners[r]))
    && (forall r, q :: r in s.runners && q in s.runners && Recorded(s, r) && Recorded(s, q) ==> r == q)
  }

  /** The file a runner may open, execute or record is at or after the committed prefix only if it is next. */
  lemma NameCommitted(s: State, k: nat)
    requires Distinct(s.files) && Prefix(s) && k < |s.files|
    ensures s.files[k].name in s.versions <==> k < |s.versions|
  {
  }

  lemma RunnerFramed(s: State, s': State, q: Runner)
    requires RunnerOk(s, q) && s'.files == s.files && s.versions <= s'.versions
    requires q.work.Some? && q.work.value.recorded ==> |s'.versions| == |s.versions|
    ensures RunnerOk(s', q)
  {
  }

  lemma CommitPrefix(s: State, r: nat)
    requires Inv(s) && Recorded(s, r)
    ensures var n := |s.versions|;
            && n < |s.files| && s.runners[r].next == n
            && s.versions + [Target(s, r).name] == Names(s.files[..n + 1])
            && s.runners[r].work.value.schema.value == s.schema + [Target(s, r).content] == Contents(s.files[..n + 1])
  {
  }

  lemma ClosedRunner(s: State, r: nat, applied: bool, reported: bool)
    requires Inv(s) && Recorded(s, r) && (reported ==> applied)
    ensures var s' := Closed(s, r, applied, reported); Prefix(s') && RunnerOk(s', s'.runners[r]) && !Recorded(s', r)
  {
    CommitPrefix(s, r);
    assert RunnerOk(s, s.runners[r]);
  }

  lemma CommitKept(s: State, r: nat, applied: bool, reported: bool)
    requires Inv(s) && Enabled(s, Commit(r, applied, reported))
    ensures Inv(Closed(s, r, applied, reported))
  {
    var s' := Closed(s, r, applied, reported);
    ClosedRunner(s, r, applied, reported);
    forall q | q in s'.runners ensures RunnerOk(s', s'.runners[q]) {
      if q != r {
        assert RunnerOk(s, s.runners[q]);
        RunnerFramed(s, s', s.runners[q]);
      }
    }
  }

  lemma RecordKept(s: State, r: nat)
    requires Inv(s) && CanRecord(s, r)
    ensures Inv(Apply(s, Record(r)))
  {
    var s' := Apply(s, Record(r));
    assert RunnerOk(s, s.runners[r]);
    NameCommitted(s, s.runners[r].next);
    forall q | q in s.runners && q != r ensures !Recorded(s, q) {
      assert RunnerOk(s, s.runners[q]);
    }
  }

  /** The remaining steps touch one runner only. */
  lemma RunnerKept(s: State, l: Label)
    requires Distinct(s.files) && Prefix(s) && Enabled(s, l) && !l.Commit? && !l.Record?
    requires l.r in s.runners ==> RunnerOk(s, s.runners[l.r])
    ensures var s' := Apply(s, l);
            && s' == s.(runners := s.runners[l.r := s'.runners[l.r]]) && RunnerOk(s', s'.runners[l.r])
            && (Recorded(s', l.r) ==> Recorded(s, l.r))
  {
  }

  lemma OtherKept(s: State, l: Label)
    requires Inv(s) && Enabled(s, l) && !l.Commit? && !l.Record?
    ensures Inv(Apply(s, l))
  {
    var s' := Apply(s, l);
    RunnerKept(s, l);
    OneRunnerMoved(s, s', l.r);
  }

  lemma OneRunnerMoved(s: State, s': State, r: nat)
    requires Inv(s) && r in s'.runners && s' == s.(runners := s.runners[r := s'.runners[r]])
    requires RunnerOk(s', s'.runners[r]) && (Recorded(s', r) ==> Recorded(s, r))
    ensures Inv(s')
  {
    forall q | q in s'.runners ensures RunnerOk(s', s'.runners[q]) {
      if q != r { RunnerFramed(s, s', s.runners[q]); }
    }
    forall q, p | q in s'.runners && p in s'.runners && Recorded(s', q) && Recorded(s', p) ensures q == p {
      assert Recorded(s, q) && Recorded(s, p);
    }
  }

  lemma {:induction false} RunInv(s: State, ls: seq<Label>)
    requires Inv(s) && ValidRun(s, ls)
    ensures Inv(Run(s, ls)) && Run(s, ls).files == s.files
    decreases |ls|
  {
    if ls == [] {
    } else {
      match ls[0] {
        case Commit(r, applied, reported) => CommitKept(s, r, applied, reported);
        case Record(r) => RecordKept(s, r);
        case _ => OtherKept(s, ls[0]);
      }
      RunInv(Apply(s, ls[0]), ls[1..]);
    }
  }

  /** What applying scripts in order does, for any meaning of a script. */
  ghost function Folded<S>(meaning: (S, string) -> S, start: S, scripts: seq<string>): S {
    if scripts == [] then start
    else meaning(Folded(meaning, start, scripts[..|scripts| - 1]), scripts[|scripts| - 1])
  }

  /** Of sorted files with distinct names, those listed first have the smaller names. */
  lemma SortedStrictly(files: seq<File>, i: nat, j: nat)
    requires Sorted(files) && Distinct(files) && i < j < |files|
    ensures Less(files[i].name, files[j].name)
  {
    LessTotal(files[i].name, files[j].name);
  }

  /**
   For every interleaving of runs with any failures, on the name-sorted files: the versions are a prefix of the files'
   names, in strictly increasing order, and every file left out has a larger name than all of them; the schema is the
   fold of exactly those files; and a run that returned nil found or left all files applied.
   */
  lemma MigrationsApplyAPrefix<S>(files: seq<File>, ls: seq<Label>, meaning: (S, string) -> S, start: S)
    requires Sorted(files) && Distinct(files) && ValidRun(Init(files), ls)
    ensures var s := Run(Init(files), ls);
            && |s.versions| <= |files| && s.versions == Names(files)[..|s.versions|]
            && (forall i, j :: 0 <= i < j < |s.versions| ==> Less(s.versions[i], s.versions[j]))
            && (forall f, v :: f in files && f.name !in s.versions && v in s.versions ==> Less(v, f.name))
            && Folded(meaning, start, s.schema) == Folded(meaning, start, Contents(files)[..|s.versions|])
            && (forall r :: r in s.runners && s.runners[r].result == Some(true) ==>
                  s.versions == Names(files) && s.schema == Contents(files))
  {
    var s := Run(Init(files), ls);
    RunInv(Init(files), ls);
    assert s.versions == Names(files)[..|s.versions|];
    assert s.schema == Contents(files)[..|s.versions|];
    PrefixInOrder(files, s.versions);
    forall r | r in s.runners && s.runners[r].result == Some(true)
      ensures s.versions == Names(files) && s.schema == Contents(files)
    {
      assert RunnerOk(s, s.runners[r]);
      assert files[..|files|] == files;
    }
  }

  lemma PrefixInOrder(files: seq<File>, versions: seq<string>)
    requires Sorted(files) && Distinct(files) && |versions| <= |files| && versions == Names(files)[..|versions|]
    ensures forall i, j :: 0 <= i < j < |versions| ==> Less(versions[i], versions[j])
    ensures forall f, v :: f in files && f.name !in versions && v in versions ==> Less(v, f.name)
  {
    forall i, j | 0 <= i < j < |versions| ensures Less(versions[i], versions[j]) {
      SortedStrictly(files, i, j);
    }
    forall f, v | f in files && f.name !in versions && v in versions ensures Less(v, f.name) {
      var i :| 0 <= i < |versions| && versions[i] == v;
      var j :| 0 <= j < |files| && files[j] == f;
      SortedStrictly(files, i, j);
    }
  }
}
