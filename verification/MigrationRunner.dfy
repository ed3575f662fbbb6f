/** The migrator as code: loading and sorting the files, and one run among others. */
module MigrationRunner {
  import opened Options
  import opened MigrationMachine

  /* ---------- Loading ---------- */

  datatype Entry = Entry(name: string, isDir: bool, content: Option<string>)

  predicate IsMigration(e: Entry) {
    !e.isDir && |e.name| >= 4 && e.name[|e.name| - 4..] == ".sql"
  }

  /** The readable migration files of a directory listing. */
  function Chosen(entries: seq<Entry>): seq<File> {
    if entries == [] then []
    else
      var e := entries[|entries| - 1];
      Chosen(entries[..|entries| - 1])
      + if IsMigration(e) && e.content.Some? then [File(e.name, e.content.value)] else []
  }

  /** How often a listing has a migration file of the given name and content. */
  ghost function Occurrences(entries: seq<Entry>, f: File): nat {
    if entries == [] then 0
    else
      var e := entries[|entries| - 1];
      Occurrences(entries[..|entries| - 1], f)
      + if !e.isDir && EndsInSql(e.name) && e.name == f.name && e.content == Some(f.content) then 1 else 0
  }

  /** The name is something followed by ".sql". */
  ghost predicate EndsInSql(name: string) {
    |name| >= 4 && name == name[..|name| - 4] + ".sql"
  }

  method InsertFile(files: seq<File>, f: File) returns (r: seq<File>)
    requires Sorted(files)
    ensures Sorted(r) && multiset(r) == multiset(files) + multiset{f}
  {
    var k := |files|;
    while k > 0 && Less(f.name, files[k - 1].name)
      invariant 0 <= k <= |files|
      invariant forall i :: k <= i < |files| ==> Less(f.name, files[i].name)
    {
      k := k - 1;
    }
    r := files[..k] + [f] + files[k..];
    SpliceKeepsFiles(files, k, f);
    InsertionSorted(files, k, f, r);
  }

  lemma SpliceKeepsFiles(files: seq<File>, k: nat, f: File)
    requires k <= |files|
    ensures multiset(files[..k] + [f] + files[k..]) == multiset(files) + multiset{f}
  {
    assert files == files[..k] + files[k..];
  }

  lemma InsertionSorted(files: seq<File>, k: nat, f: File, r: seq<File>)
    requires Sorted(files) && k <= |files| && r == files[..k] + [f] + files[k..]
    requires forall i :: k <= i < |files| ==> Less(f.name, files[i].name)
    requires k > 0 ==> !Less(f.name, files[k - 1].name)
    ensures Sorted(r)
  {
    forall i, j | 0 <= i < j < |r| ensures !Less(r[j].name, r[i].name) {
      if i == k {
        assert r[j] == files[j - 1];
        LessTotal(f.name, files[j - 1].name);
      } else if j == k {
        assert r[i] == files[i];
        if i < k - 1 { NotLessTransitive(files[i].name, files[k - 1].name, f.name); }
      } else {
        assert r[i] == files[if i < k then i else i - 1] && r[j] == files[if j < k then j else j - 1];
      }
    }
  }

  lemma NotLessTransitive(a: string, b: string, c: string)
    requires !Less(b, a) && !Less(c, b)
    ensures !Less(c, a)
  {
  }

  /** sort.Slice by name. */
  method SortFiles(files: seq<File>) returns (r: seq<File>)
    ensures Sorted(r) && multiset(r) == multiset(files)
  {
    r := [];
    var i := 0;
    while i < |files|
      invariant 0 <= i <= |files| && Sorted(r) && multiset(r) == multiset(files[..i])
    {
      r := InsertFile(r, files[i]);
      assert files[..i + 1] == files[..i] + [files[i]];
      i := i + 1;
    }
    assert files[..i] == files;
  }

  predicate Unreadable(e: Entry) {
    IsMigration(e) && e.content.None?
  }

  /** A listing that can be read completely: it succeeded, and every migration file in it is readable. */
  predicate Loadable(listing: Option<seq<Entry>>) {
    listing.Some? && forall i :: 0 <= i < |listing.value| ==> !Unreadable(listing.value[i])
  }

  /** ... that is, every entry that is no directory and whose name ends in ".sql". */
  lemma LoadableExactly(entries: seq<Entry>)
    ensures Loadable(Some(entries)) <==>
              forall i :: 0 <= i < |entries| && !entries[i].isDir && EndsInSql(entries[i].name) ==>
                entries[i].content.Some?
  {
    forall i | 0 <= i < |entries|
      ensures Unreadable(entries[i]) <==> !entries[i].isDir && EndsInSql(entries[i].name) && entries[i].content.None?
    {
      SqlNames(entries[i]);
    }
  }

  /** The names of a listing's migration files. */
  ghost predicate NamesListed(entries: seq<Entry>, names: seq<string>) {
    forall v :: v in names <==> exists i :: 0 <= i < |entries| && !entries[i].isDir && EndsInSql(entries[i].name)
                                            && entries[i].name == v
  }

  lemma ListedNames(listing: Option<seq<Entry>>, files: seq<File>)
    requires Loadable(listing) && Lists(listing, files)
    ensures NamesListed(listing.value, Names(files))
  {
    var l := listing.value;
    LoadableExactly(l);
    forall f ensures f in files <==> Occurrences(l, f) > 0 {
      ChosenCounts(l, f);
      assert f in files <==> f in multiset(files);
    }
    forall v ensures v in Names(files) <==>
                       exists i :: 0 <= i < |l| && !l[i].isDir && EndsInSql(l[i].name) && l[i].name == v {
      if v in Names(files) {
        var j :| 0 <= j < |files| && Names(files)[j] == v;
        OccursWhereListed(l, files[j]);
      }
      if exists i :: 0 <= i < |l| && !l[i].isDir && EndsInSql(l[i].name) && l[i].name == v {
        var i :| 0 <= i < |l| && !l[i].isDir && EndsInSql(l[i].name) && l[i].name == v;
        var f := File(v, l[i].content.value);
        OccursWhereListed(l, f);
        var j :| 0 <= j < |files| && files[j] == f;
        assert Names(files)[j] == v;
      }
    }
  }

  lemma SqlNames(e: Entry)
    ensures IsMigration(e) <==> !e.isDir && EndsInSql(e.name)
  {
    if |e.name| >= 4 {
      assert e.name == e.name[..|e.name| - 4] + e.name[|e.name| - 4..];
    }
  }

  /** The chosen files are the listing's migration files, each as often as it is listed. */
  lemma {:induction false} ChosenCounts(entries: seq<Entry>, f: File)
    ensures multiset(Chosen(entries))[f] == Occurrences(entries, f)
    ensures f in Chosen(entries) <==> Occurrences(entries, f) > 0
  {
    if entries == [] {
    } else {
      var e := entries[|entries| - 1];
      ChosenCounts(entries[..|entries| - 1], f);
      SqlNames(e);
    }
  }

  lemma {:induction false} OccursWhereListed(entries: seq<Entry>, f: File)
    ensures Occurrences(entries, f) > 0 <==>
              exists i :: 0 <= i < |entries| && !entries[i].isDir && EndsInSql(entries[i].name)
                          && entries[i].name == f.name && entries[i].content == Some(f.content)
  {
    if entries == [] {
    } else {
      var n := |entries| - 1;
      OccursWhereListed(entries[..n], f);
      assert forall i :: 0 <= i < n ==> entries[..n][i] == entries[i];
      if exists i :: 0 <= i < n && !entries[i].isDir && EndsInSql(entries[i].name)
                     && entries[i].name == f.name && entries[i].content == Some(f.content) {
        var i :| 0 <= i < n && !entries[i].isDir && EndsInSql(entries[i].name)
                 && entries[i].name == f.name && entries[i].content == Some(f.content);
        assert entries[..n][i] == entries[i];
      }
    }
  }

  /** loadMigrationFiles: every .sql file, sorted by name; a failed listing or one unreadable file fails the load. */
  method LoadMigrationFiles(listing: Option<seq<Entry>>) returns (loaded: Option<seq<File>>)
    ensures loaded.Some? <==> Loadable(listing)
    ensures loaded.Some? ==> Sorted(loaded.value) && multiset(loaded.value) == multiset(Chosen(listing.value))
    ensures loaded.Some? ==> forall f :: multiset(loaded.value)[f] == Occurrences(listing.value, f)
  {
    if listing.None? { return None; }
    var entries, files := listing.value, [];
    var i := 0;
    while i < |entries|
      invariant 0 <= i <= |entries| && files == Chosen(entries[..i])
      invariant forall j :: 0 <= j < i ==> !Unreadable(entries[j])
    {
      assert entries[..i + 1][..i] == entries[..i] && entries[..i + 1][i] == entries[i];
      if IsMigration(entries[i]) {
        if entries[i].content.None? { return None; }
        files := files + [File(entries[i].name, entries[i].content.value)];
      }
      i := i + 1;
    }
    assert entries[..i] == entries;
    files := SortFiles(files);
    forall f ensures multiset(files)[f] == Occurrences(entries, f) { ChosenCounts(entries, f); }
    return Some(files);
  }

  /** A run may list the directory in any order, and fail to; but what it lists are always the same files. */
  ghost predicate Lists(listing: Option<seq<Entry>>, files: seq<File>) {
    Loadable(listing) ==> multiset(Chosen(listing.value)) == multiset(files)
  }

  /** Whatever order the directory is listed in, a run works from the one sorted list. */
  lemma LoadsTheFiles(listing: Option<seq<Entry>>, files: seq<File>, loaded: seq<File>)
    requires Loadable(listing) && Lists(listing, files) && Sorted(files) && Distinct(files)
    requires Sorted(loaded) && multiset(loaded) == multiset(Chosen(listing.value))
    ensures loaded == files
  {
    SortedUnique(files, loaded);
  }

  lemma SmallestFirst(a: seq<File>, b: seq<File>)
    requires Sorted(a) && Sorted(b) && a != [] && b != [] && a[0] in b && b[0] in a
    ensures a[0].name == b[0].name
  {
    var i :| 0 <= i < |b| && b[i] == a[0];
    var j :| 0 <= j < |a| && a[j] == b[0];
    LessTotal(a[0].name, b[0].name);
  }

  lemma TailFiles(a: seq<File>)
    requires a != []
    ensures multiset(a[1..]) == multiset(a) - multiset{a[0]}
  {
    assert a == [a[0]] + a[1..];
  }

  lemma SameFilesSameLength(a: seq<File>, b: seq<File>)
    requires multiset(a) == multiset(b)
    ensures |a| == |b| && forall f :: f in a <==> f in b
  {
    assert |multiset(a)| == |a| && |multiset(b)| == |b|;
    assert forall f :: f in a <==> f in multiset(a);
    assert forall f :: f in b <==> f in multiset(b);
  }

  /** The loaded list depends only on the directory's files, not on the order it lists them in. */
  lemma {:induction false} SortedUnique(a: seq<File>, b: seq<File>)
    requires Sorted(a) && Sorted(b) && Distinct(a) && multiset(a) == multiset(b)
    ensures a == b
    decreases |a|
  {
    SameFilesSameLength(a, b);
    if a == [] {
    } else {
      SmallestFirst(a, b);
      assert a[0] == b[0] by {
        var j :| 0 <= j < |a| && a[j] == b[0];
        assert j == 0;
      }
      TailFiles(a);
      TailFiles(b);
      SortedUnique(a[1..], b[1..]);
    }
  }

  /* ---------- Running ---------- */

  function Actor(l: Label): nat {
    l.r
  }

  lemma OthersLeaveAlone(s: State, l: Label, r: nat)
    requires Enabled(s, l) && Actor(l) != r
    ensures var s' := Apply(s, l);
            && s'.files == s.files && (r in s'.runners <==> r in s.runners)
            && (r in s.runners ==> s'.runners[r] == s.runners[r])
  {
  }

  class Server {
    var s: State
    ghost var trace: seq<Label>

    ghost predicate Valid()
      reads this
    {
      && Sorted(s.files) && Distinct(s.files)
      && ValidRun(Init(s.files), trace) && Run(Init(s.files), trace) == s
    }

    constructor (files: seq<File>)
      requires Sorted(files) && Distinct(files)
      ensures Valid() && s == Init(files)
    {
      s, trace := Init(files), [];
    }

    method Take(l: Label)
      requires Valid() && Enabled(s, l)
      modifies this
      ensures Valid() && s == Apply(old(s), l) && trace == old(trace) + [l]
    {
      RunSnoc(Init(s.files), trace, l);
      s := Apply(s, l);
      trace := trace + [l];
    }

    /** Other runs make whichever of the planned steps are possible. */
    method Interfere(mine: nat, plan: seq<Label>)
      requires Valid()
      modifies this
      ensures Valid() && old(trace) <= trace && s.files == old(s).files && (plan == [] ==> s == old(s))
      ensures mine in s.runners <==> mine in old(s).runners
      ensures mine in s.runners ==> s.runners[mine] == old(s).runners[mine]
    {
      var i := 0;
      while i < |plan|
        invariant 0 <= i <= |plan| && Valid() && old(trace) <= trace
        invariant s.files == old(s).files && (i == 0 ==> s == old(s))
        invariant (mine in s.runners <==> mine in old(s).runners)
        invariant mine in s.runners ==> s.runners[mine] == old(s).runners[mine]
      {
        if Enabled(s, plan[i]) && Actor(plan[i]) != mine {
          OthersLeaveAlone(s, plan[i], mine);
          Take(plan[i]);
        }
        i := i + 1;
      }
    }
  }

  /** What happens to one file's transaction, and what others do meanwhile. */
  datatype FileScript = FileScript(begins: bool, executes: bool, records: bool, commits: bool, reported: bool,
                                   before: seq<Label>, middle: seq<Label>, late: seq<Label>)

  predicate Undisturbed(f: FileScript) {
    f.begins && f.executes && f.records && f.commits && f.reported && f.before == f.middle == f.late == []
  }

  /** The runner stands between files, having passed `k` of them. */
  ghost predicate At(server: Server, r: nat, k: nat)
    reads server
  {
    && server.Valid() && r in server.s.runners
    && server.s.runners[r].(applied := {}) == Runner({}, k, None, None) && k <= |server.s.files|
  }

  /** Nobody is in the middle of recording a version. */
  ghost predicate Quiet(s: State, r: nat) {
    forall q :: q in s.runners && q != r ==> !Recorded(s, q)
  }

  ghost predicate CanApply(s: State, r: nat, k: nat) {
    k < |s.files| && s.files[k].name !in s.versions && Quiet(s, r)
  }

  /** applyMigration: script and version row in one transaction, or neither. */
  method ApplyMigration(server: Server, r: nat, ghost k: nat, script: FileScript) returns (err: bool)
    requires At(server, r, k) && k < |server.s.files| && server.s.files[k].name !in server.s.runners[r].applied
    modifies server
    ensures server.Valid() && server.s.files == old(server.s).files && old(server.trace) <= server.trace
    ensures r in server.s.runners && server.s.runners[r].applied == old(server.s).runners[r].applied
    ensures !err ==> At(server, r, k + 1)
    ensures err ==> server.s.runners[r].result == Some(false)
    ensures Undisturbed(script) && CanApply(old(server.s), r, k) ==>
              !err && Quiet(server.s, r) && |server.s.versions| == |old(server.s).versions| + 1
  {
    if !script.begins {
      server.Take(Fail(r));
      return true;
    }
    server.Take(Open(r));
    server.Interfere(r, script.before);
    if !script.executes {
      server.Take(Fail(r));
      return true;
    }
    server.Take(Execute(r));
    server.Interfere(r, script.middle);
    err := RecordVersion(server, r, k, script);
  }

  /** The second half of applyMigration: the version row, then the commit. */
  method RecordVersion(server: Server, r: nat, ghost k: nat, script: FileScript) returns (err: bool)
    requires server.Valid() && Working(server.s, r) && server.s.runners[r].next == k
    requires server.s.runners[r].work.value.schema.Some? && !server.s.runners[r].work.value.recorded
    modifies server
    ensures server.Valid() && server.s.files == old(server.s).files && old(server.trace) <= server.trace
    ensures r in server.s.runners && server.s.runners[r].applied == old(server.s).runners[r].applied
    ensures !err ==> At(server, r, k + 1)
    ensures err ==> server.s.runners[r].result == Some(false)
    ensures Undisturbed(script) && CanApply(old(server.s), r, k) ==>
              !err && Quiet(server.s, r) && |server.s.versions| == |old(server.s).versions| + 1
  {
    if !script.records || !CanRecord(server.s, r) {
      server.Take(Fail(r));
      return true;
    }
    server.Take(Record(r));
    server.Interfere(r, script.late);
    server.Take(Commit(r, script.commits, script.commits && script.reported));
    err := !(script.commits && script.reported);
  }

  /** Alone since it began with `n` versions applied, the runner has extended them up to its position. */
  ghost predicate Alone(s: State, r: nat, n: nat, i: nat) {
    && Quiet(s, r) && r in s.runners && |s.versions| == (if i <= n then n else i)
    && forall j :: 0 <= j < |s.files| ==> (s.files[j].name in s.runners[r].applied <==> j < n)
  }

  lemma AloneAtStart(files: seq<File>, ls: seq<Label>, r: nat)
    requires Distinct(files) && ValidRun(Init(files), ls)
    requires r !in Run(Init(files), ls).runners && Quiet(Run(Init(files), ls), r)
    ensures Run(Init(files), ls).files == files
    ensures Alone(Apply(Run(Init(files), ls), Start(r)), r, |Run(Init(files), ls).versions|, 0)
  {
    var s := Run(Init(files), ls);
    RunInv(Init(files), ls);
    forall j | 0 <= j < |s.files| ensures s.files[j].name in s.versions <==> j < |s.versions| {
      NameCommitted(s, j);
    }
  }

  lemma AloneCanApply(files: seq<File>, ls: seq<Label>, r: nat, n: nat, i: nat)
    requires Distinct(files) && ValidRun(Init(files), ls) && Alone(Run(Init(files), ls), r, n, i)
    requires Run(Init(files), ls).files == files && i < |files|
    requires files[i].name !in Run(Init(files), ls).runners[r].applied
    ensures CanApply(Run(Init(files), ls), r, i)
  {
    RunInv(Init(files), ls);
    NameCommitted(Run(Init(files), ls), i);
  }

  /**
   Run: nil exactly when this run ended well, and then every file is applied, whatever other runs did. A run that is
   alone and undisturbed ends well. `fetched` says whether the applied versions could be read.
   */
  method RunMigrations(server: Server, r: nat, fetched: bool, listing: Option<seq<Entry>>, script: nat -> FileScript)
    returns (err: bool)
    requires server.Valid() && r !in server.s.runners && Lists(listing, server.s.files)
    modifies server
    ensures server.Valid() && server.s.files == old(server.s).files && old(server.trace) <= server.trace
    ensures fetched ==> r in server.s.runners && server.s.runners[r].result == Some(!err)
    ensures !fetched ==> err && server.s == old(server.s)
    ensures !err ==> server.s.versions == Names(server.s.files) && server.s.schema == Contents(server.s.files)
    ensures !err ==> Loadable(listing) && NamesListed(listing.value, server.s.versions)
    ensures fetched && Loadable(listing) && Quiet(old(server.s), r) && (forall k :: Undisturbed(script(k))) ==> !err
  {
    if !fetched { return true; }
    ghost var calm := Quiet(server.s, r) && forall k :: Undisturbed(script(k));
    ghost var n := |server.s.versions|;
    if calm { AloneAtStart(server.s.files, server.trace, r); }
    server.Take(Start(r));
    var loaded := LoadMigrationFiles(listing);
    if loaded.None? {
      server.Take(Fail(r));
      return true;
    }
    LoadsTheFiles(listing, server.s.files, loaded.value);
    err := RunFiles(server, r, loaded.value, script, calm, n);
    ListedNames(listing, server.s.files);
    if !err { FinishRun(server, r); }
  }

  method FinishRun(server: Server, r: nat)
    requires At(server, r, |server.s.files|)
    modifies server
    ensures server.Valid() && server.s.files == old(server.s).files && old(server.trace) <= server.trace
    ensures r in server.s.runners && server.s.runners[r].result == Some(true)
    ensures server.s.versions == Names(server.s.files) && server.s.schema == Contents(server.s.files)
  {
    server.Take(Finish(r));
    AllApplied(server.s.files, server.trace, r);
  }

  /** The loop over the loaded files. */
  method RunFiles(server: Server, r: nat, files: seq<File>, script: nat -> FileScript, ghost calm: bool, ghost n: nat)
    returns (err: bool)
    requires At(server, r, 0) && files == server.s.files
    requires calm ==> Alone(server.s, r, n, 0) && forall k :: Undisturbed(script(k))
    modifies server
    ensures server.Valid() && server.s.files == old(server.s).files && old(server.trace) <= server.trace
    ensures !err ==> At(server, r, |files|)
    ensures err ==> !calm && r in server.s.runners && server.s.runners[r].result == Some(false)
  {
    var i := 0;
    while i < |files|
      invariant At(server, r, i) && server.s.files == files && old(server.trace) <= server.trace
      invariant calm ==> Alone(server.s, r, n, i)
    {
      if files[i].name in server.s.runners[r].applied {
        server.Take(Skip(r));
      } else {
        if calm { AloneCanApply(files, server.trace, r, n, i); }
        err := ApplyMigration(server, r, i, script(i));
        if err { return; }
      }
      i := i + 1;
    }
    err := false;
  }

  lemma AllApplied(files: seq<File>, ls: seq<Label>, r: nat)
    requires Sorted(files) && Distinct(files) && ValidRun(Init(files), ls)
    requires r in Run(Init(files), ls).runners && Run(Init(files), ls).runners[r].result == Some(true)
    ensures Run(Init(files), ls).versions == Names(files) && Run(Init(files), ls).schema == Contents(files)
  {
    MigrationsApplyAPrefix(files, ls, (n: int, _) => n, 0);
  }
}
