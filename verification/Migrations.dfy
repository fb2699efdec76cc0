/** api/internal/db/migrate.go: extracting the up section, and applying each file once in order. */
module Migrations {
  import opened Strings

  const UP_MARKER := "-- +goose Up"
  const DOWN_MARKER := "-- +goose Down"

  /** The text between the first Up marker and the first Down marker after it; without Up, the whole file. */
  function UpSection(sql: string): string {
    var up := IndexFrom(sql, UP_MARKER, 0);
    if up < 0 then TrimSpace(sql)
    else
      var body := sql[up + |UP_MARKER|..];
      var down := IndexFrom(body, DOWN_MARKER, 0);
      if down < 0 then TrimSpace(body) else TrimSpace(body[..down])
  }

  lemma IndexIsContains(s: string, part: string)
    ensures IndexFrom(s, part, 0) >= 0 <==> Contains(s, part)
  {
    if IndexFrom(s, part, 0) >= 0 {
      assert OccursAt(s, part, IndexFrom(s, part, 0));
    }
  }

  /** Text cut before its first occurrence of a part has no occurrence left. */
  lemma CutBeforeFirst(s: string, part: string, first: nat)
    requires first <= |s| && |part| > 0 && forall j: nat :: j < first ==> !OccursAt(s, part, j)
    ensures !Contains(s[..first], part)
  {
    forall j: nat
      ensures !OccursAt(s[..first], part, j)
    {
      assert j < first ==> !OccursAt(s, part, j);
      if j + |part| <= first {
        assert s[..first][j..j + |part|] == s[j..j + |part|];
      }
    }
  }

  /**
   The statements to apply include a Down marker exactly when the file has one and no Up marker: with an Up marker
   nothing from the Down part on is applied, without one the file is applied whole.
   */
  lemma DownIsLeftOut(sql: string)
    ensures Contains(UpSection(sql), DOWN_MARKER) <==> Contains(sql, DOWN_MARKER) && !Contains(sql, UP_MARKER)
  {
    IndexIsContains(sql, UP_MARKER);
    var up := IndexFrom(sql, UP_MARKER, 0);
    if up < 0 {
      TrimKeepsVisible(sql, DOWN_MARKER);
    } else {
      var body := sql[up + |UP_MARKER|..];
      var down := IndexFrom(body, DOWN_MARKER, 0);
      IndexIsContains(body, DOWN_MARKER);
      if down < 0 {
        TrimKeepsVisible(body, DOWN_MARKER);
      } else {
        CutBeforeFirst(body, DOWN_MARKER, down);
        TrimKeepsVisible(body[..down], DOWN_MARKER);
      }
    }
  }

  /** A file laid out as the repository's are yields the trimmed text between its markers. */
  lemma UpSectionOfLayout(head: string, body: string, tail: string)
    requires forall j: nat :: j < |head| ==> !OccursAt(head + UP_MARKER + body + DOWN_MARKER + tail, UP_MARKER, j)
    requires forall j: nat :: j < |body| ==> !OccursAt(body + DOWN_MARKER + tail, DOWN_MARKER, j)
    ensures UpSection(head + UP_MARKER + body + DOWN_MARKER + tail) == TrimSpace(body)
  {
    var sql := head + UP_MARKER + body + DOWN_MARKER + tail;
    var rest := body + DOWN_MARKER + tail;
    assert OccursAt(sql, UP_MARKER, |head|);
    assert IndexFrom(sql, UP_MARKER, 0) == |head|;
    assert sql[|head| + |UP_MARKER|..] == rest;
    assert OccursAt(rest, DOWN_MARKER, |body|);
    assert rest[..|body|] == body;
  }

  /** The markers themselves, and a file that has nothing before the first and one statement between the two. */
  lemma SmallFile(tail: string)
    ensures UpSection("-- +goose Up" + "\nA;\n" + "-- +goose Down" + tail) == "A;"
    ensures UpSection("\tA;\r\n") == "A;"
  {
    var body := "\nA;\n";
    forall j: nat | j < |body|
      ensures !OccursAt(body + DOWN_MARKER + tail, DOWN_MARKER, j)
    {
      assert (body + DOWN_MARKER + tail)[j] == body[j] != '-' && DOWN_MARKER[0] == '-';
    }
    UpSectionOfLayout("", body, tail);
    assert "" + UP_MARKER + body + DOWN_MARKER + tail == UP_MARKER + body + DOWN_MARKER + tail;
    TrimmedStatement();
  }

  lemma TrimmedStatement()
    ensures TrimSpace("\nA;\n") == "A;" && TrimSpace("\tA;\r\n") == "A;"
    ensures IndexFrom("\tA;\r\n", UP_MARKER, 0) < 0
  {
    assert "\nA;\n"[1..] == "A;\n" && "A;\n"[..2] == "A;";
    assert "\tA;\r\n"[1..] == "A;\r\n" && "A;\r\n"[..3] == "A;\r" && "A;\r"[..2] == "A;";
  }

  // ----- Applying files -----

  datatype File = File(name: string, text: string)

  ghost predicate DistinctNames(files: seq<File>) {
    forall i, j :: 0 <= i < j < |files| ==> files[i].name != files[j].name
  }

  ghost function Names(files: seq<File>, n: nat): set<string>
    requires n <= |files|
  {
    set i | 0 <= i < n :: files[i].name
  }

  function Sections(files: seq<File>, n: nat): seq<string>
    requires n <= |files|
  {
    seq(n, i requires 0 <= i < n => UpSection(files[i].text))
  }

  /** Exactly the first files, as many as the schema has sections, are recorded and applied, once each in order. */
  ghost predicate IsPrefix(files: seq<File>, recorded: set<string>, history: seq<string>) {
    |history| <= |files| && recorded == Names(files, |history|) && history == Sections(files, |history|)
  }

  lemma PrefixNames(files: seq<File>, n: nat)
    requires n <= |files|
    ensures forall j :: 0 <= j < n ==> files[j].name in Names(files, n)
  {
  }

  lemma PrefixGrows(files: seq<File>, recorded: set<string>, history: seq<string>, i: nat)
    requires IsPrefix(files, recorded, history) && DistinctNames(files)
    requires i < |files| && i <= |history| && files[i].name !in recorded
    ensures i == |history|
    ensures IsPrefix(files, recorded + {files[i].name}, history + [UpSection(files[i].text)])
  {
    PrefixNames(files, |history|);
    assert Names(files, i + 1) == Names(files, i) + {files[i].name};
    assert Sections(files, i + 1) == Sections(files, i) + [UpSection(files[i].text)];
  }

  /** The embedded files in the order a run visits them. */
  function SortedFiles(listing: seq<string>, text: map<string, string>): (files: seq<File>)
    requires forall x :: x in listing ==> x in text
    ensures |files| == |listing|
  {
    var names := Sorted(listing);
    forall i | 0 <= i < |names|
      ensures names[i] in text
    {
      assert names[i] in multiset(names);
    }
    seq(|names|, i requires 0 <= i < |names| => File(names[i], text[names[i]]))
  }

  /** All listed files, and of any two the one whose name comes first in the dictionary is first. */
  lemma SortedFilesInOrder(listing: seq<string>, text: map<string, string>)
    requires forall x :: x in listing ==> x in text
    ensures var files := SortedFiles(listing, text);
            && multiset(seq(|files|, i requires 0 <= i < |files| => files[i].name)) == multiset(listing)
            && (forall i :: 0 <= i < |files| ==> files[i].name in text && files[i].text == text[files[i].name])
            && (forall i, j :: 0 <= i < j < |files| ==> ComesFirst(files[i].name, files[j].name))
  {
    var files := SortedFiles(listing, text);
    assert seq(|files|, i requires 0 <= i < |files| => files[i].name) == Sorted(listing);
    forall i | 0 <= i < |files|
      ensures files[i].name in text
    {
      assert files[i].name in multiset(Sorted(listing));
    }
    forall i, j | 0 <= i < j < |files|
      ensures ComesFirst(files[i].name, files[j].name)
    {
      AtMostIsLexical(files[i].name, files[j].name);
    }
  }

  lemma SortedFilesDistinct(listing: seq<string>, text: map<string, string>)
    requires forall x :: x in listing ==> x in text
    requires forall i, j :: 0 <= i < j < |listing| ==> listing[i] != listing[j]
    ensures DistinctNames(SortedFiles(listing, text))
  {
    var names := Sorted(listing);
    forall i, j | 0 <= i < j < |names|
      ensures names[i] != names[j]
    {
      NoDuplicate(listing, names[i]);
      assert names == names[..j] + names[j..];
      assert names[i] in multiset(names[..j]);
      assert names[j] in multiset(names[j..]);
    }
  }

  lemma {:induction false} NoDuplicate(xs: seq<string>, x: string)
    requires forall i, j :: 0 <= i < j < |xs| ==> xs[i] != xs[j]
    ensures multiset(xs)[x] <= 1
  {
    if |xs| > 0 {
      var n := |xs| - 1;
      assert xs == xs[..n] + [xs[n]];
      NoDuplicate(xs[..n], x);
      if xs[n] == x {
        assert x !in xs[..n];
      }
    }
  }

  /** The order in which the directory lists the files does not matter. */
  lemma ListingOrderIrrelevant(listing: seq<string>, other: seq<string>, text: map<string, string>)
    requires multiset(listing) == multiset(other) && forall x :: x in listing ==> x in text
    ensures forall x :: x in other ==> x in text
    ensures SortedFiles(listing, text) == SortedFiles(other, text)
  {
    forall x | x in other
      ensures x in text
    {
      assert x in multiset(other);
    }
    assert |multiset(listing)| == |listing| && |multiset(other)| == |other|;
    SortedUnique(Sorted(listing), Sorted(other));
  }

  /** The schema: what has been applied, and the schema_migrations table. */
  class Database {
    var recorded: set<string>
    var history: seq<string>

    constructor ()
      ensures recorded == {} && history == []
    {
      recorded, history := {}, [];
    }

    /** A first run applies the up sections in dictionary order of the file names, however the files are listed. */
    method MigrateEmpty(listing: seq<string>, text: map<string, string>, ghost names: seq<string>) returns (ok: bool)
      requires multiset(listing) == multiset(names) && InOrder(names) && forall x :: x in names ==> x in text
      requires recorded == {} && history == []
      modifies this
      ensures ok && |history| == |names|
      ensures forall i :: 0 <= i < |names| ==> names[i] in text && history[i] == UpSection(text[names[i]])
    {
      OrderedListing(listing, text, names);
      ok := Migrate(listing, text, |listing|);
    }

    /** A first run over the repository's files. */
    method MigrateRepository(listing: seq<string>, text: map<string, string>) returns (ok: bool)
      requires multiset(listing) == multiset(["00001_init.sql", "00002_user_ref.sql", "00003_claimed_at.sql"])
      requires {"00001_init.sql", "00002_user_ref.sql", "00003_claimed_at.sql"} <= text.Keys
      requires recorded == {} && history == []
      modifies this
      ensures ok && |history| == 3
      ensures history[0] == UpSection(text["00001_init.sql"])
      ensures history[1] == UpSection(text["00002_user_ref.sql"])
      ensures history[2] == UpSection(text["00003_claimed_at.sql"])
    {
      ghost var names := ["00001_init.sql", "00002_user_ref.sql", "00003_claimed_at.sql"];
      DigitDecides(names[0], names[1]);
      DigitDecides(names[1], names[2]);
      DigitDecides(names[0], names[2]);
      ok := MigrateEmpty(listing, text, names);
    }

    /**
     One run over the listed files, in which the transaction for file number crashAt, if it comes to that, fails.
     A run that succeeds leaves everything applied, whatever earlier runs had left; one that fails leaves a prefix.
     */
    method Migrate(listing: seq<string>, text: map<string, string>, crashAt: nat) returns (ok: bool)
      requires forall x :: x in listing ==> x in text
      requires forall i, j :: 0 <= i < j < |listing| ==> listing[i] != listing[j]
      requires IsPrefix(SortedFiles(listing, text), recorded, history)
      modifies this
      ensures IsPrefix(SortedFiles(listing, text), recorded, history)
      ensures old(history) <= history
      ensures ok ==> |history| == |listing|
      ensures !ok <==> |old(history)| <= crashAt < |listing|
      ensures !ok ==> |history| == crashAt
    {
      var files := SortedFiles(listing, text);
      SortedFilesDistinct(listing, text);
      var i := 0;
      while i < |files|
        invariant i <= |files| && IsPrefix(files, recorded, history) && i <= |history|
        invariant old(history) <= history
        invariant |history| == |old(history)| || |history| == i
        invariant !(|old(history)| <= crashAt < i)
      {
        if files[i].name !in recorded {
          PrefixGrows(files, recorded, history, i);
          if i == crashAt {
            return false;
          }
          recorded := recorded + {files[i].name};
          history := history + [UpSection(files[i].text)];
        } else {
          RecordedIsEarlier(files, recorded, history, i);
        }
        i := i + 1;
      }
      return true;
    }
  }

  /** Different names in dictionary order. */
  ghost predicate InOrder(names: seq<string>) {
    forall i, j :: 0 <= i < j < |names| ==> ComesFirst(names[i], names[j]) && names[i] != names[j]
  }

  lemma DigitDecides(a: string, b: string)
    requires |a| > 4 && |b| > 4 && a[..4] == b[..4] && a[4] < b[4]
    ensures ComesFirst(a, b) && a != b
  {
  }

  lemma SortedIs(listing: seq<string>, names: seq<string>)
    requires multiset(listing) == multiset(names) && InOrder(names)
    ensures Sorted(listing) == names && |listing| == |names|
  {
    forall i, j | 0 <= i < j < |names|
      ensures AtMost(names[i], names[j])
    {
      AtMostIsLexical(names[i], names[j]);
    }
    assert |multiset(listing)| == |listing| && |multiset(names)| == |names|;
    SortedUnique(Sorted(listing), names);
  }

  lemma NoneTwice(listing: seq<string>, names: seq<string>)
    requires multiset(listing) == multiset(names) && InOrder(names)
    ensures forall i, j :: 0 <= i < j < |listing| ==> listing[i] != listing[j]
  {
    forall i, j | 0 <= i < j < |listing|
      ensures listing[i] != listing[j]
    {
      NoDuplicate(names, listing[i]);
      assert listing == listing[..j] + listing[j..];
      assert listing[i] in multiset(listing[..j]);
      assert listing[j] in multiset(listing[j..]);
    }
  }

  lemma OrderedListing(listing: seq<string>, text: map<string, string>, names: seq<string>)
    requires multiset(listing) == multiset(names) && InOrder(names) && forall x :: x in names ==> x in text
    ensures |listing| == |names| && forall x :: x in listing ==> x in text
    ensures forall i, j :: 0 <= i < j < |listing| ==> listing[i] != listing[j]
    ensures forall i :: 0 <= i < |names| ==>
              names[i] in text && SortedFiles(listing, text)[i] == File(names[i], text[names[i]])
  {
    forall x | x in listing
      ensures x in text
    {
      assert x in multiset(listing);
    }
    NoneTwice(listing, names);
    SortedIs(listing, names);
  }

  lemma RecordedIsEarlier(files: seq<File>, recorded: set<string>, history: seq<string>, i: nat)
    requires IsPrefix(files, recorded, history) && DistinctNames(files) && i < |files| && files[i].name in recorded
    ensures i < |history|
  {
    var j :| 0 <= j < |history| && files[j].name == files[i].name;
  }

  // ----- Concurrent and crashed runs of a growing list of files -----

  /** Where one Migrate run stands with the file it has reached. */
  datatype Stage =
    | Checking(i: nat)   // about to look the file up
    | Beginning(i: nat)  // not recorded; about to run its statements in a transaction
    | Applied(i: nat)    // statements run and name inserted, not committed
    | Succeeded
    | Stopped            // failed or crashed

  /** A run of a binary that embeds the first total files. */
  datatype Runner = Runner(total: nat, stage: Stage)

  datatype State = State(recorded: set<string>, history: seq<string>, runners: seq<Runner>)

  datatype Action = Launch(total: nat) | Look(k: nat) | Execute(k: nat) | Commit(k: nat) | Stop(k: nat)

  /** The primary key: a name can be inserted only if it is neither recorded nor inserted by an open transaction. */
  ghost predicate CanInsert(s: State, i: nat, name: string) {
    && name !in s.recorded
    && forall k :: 0 <= k < |s.runners| && s.runners[k].stage.Applied? ==> s.runners[k].stage.i != i
  }

  ghost predicate Enabled(files: seq<File>, s: State, a: Action) {
    match a
    case Launch(total) => total <= |files|
    case Look(k) => k < |s.runners| && s.runners[k].stage.Checking?
    case Execute(k) =>
      && k < |s.runners| && s.runners[k].stage.Beginning? && s.runners[k].stage.i < |files|
      && CanInsert(s, s.runners[k].stage.i, files[s.runners[k].stage.i].name)
    case Commit(k) => k < |s.runners| && s.runners[k].stage.Applied? && s.runners[k].stage.i < |files|
    case Stop(k) => k < |s.runners|
  }

  /** What a run finds when it looks up the file it has reached. */
  ghost function Looked(files: seq<File>, recorded: set<string>, total: nat, i: nat): Stage {
    if i >= total || i >= |files| then Succeeded
    else if files[i].name in recorded then Checking(i + 1)
    else Beginning(i)
  }

  ghost function Goto(s: State, k: nat, stage: Stage): State
    requires k < |s.runners|
  {
    s.(runners := s.runners[k := s.runners[k].(stage := stage)])
  }

  ghost function Apply(files: seq<File>, s: State, a: Action): State
    requires Enabled(files, s, a)
  {
    match a
    case Launch(total) => s.(runners := s.runners + [Runner(total, Checking(0))])
    case Look(k) => Goto(s, k, Looked(files, s.recorded, s.runners[k].total, s.runners[k].stage.i))
    case Execute(k) => Goto(s, k, Applied(s.runners[k].stage.i))
    case Commit(k) =>
      var i := s.runners[k].stage.i;
      Goto(s.(recorded := s.recorded + {files[i].name}, history := s.history + [UpSection(files[i].text)]),
           k, Checking(i + 1))
    case Stop(k) => Goto(s, k, if s.runners[k].stage.Succeeded? then Succeeded else Stopped)
  }

  datatype Run = Run(states: seq<State>, acts: seq<Action>)

  ghost predicate IsRun(files: seq<File>, r: Run) {
    && |r.states| == |r.acts| + 1
    && r.states[0] == State({}, [], [])
    && forall i {:trigger r.acts[i]} :: 0 <= i < |r.acts| ==>
         Enabled(files, r.states[i], r.acts[i]) && r.states[i + 1] == Apply(files, r.states[i], r.acts[i])
  }

  /** A run has every file before the one it has reached recorded; an open transaction is for the next one to come. */
  ghost predicate RunnerFits(files: seq<File>, s: State, p: Runner) {
    && p.total <= |files|
    && match p.stage
       case Checking(i) => i <= |s.history| && i <= p.total
       case Beginning(i) => i <= |s.history| && i < p.total
       case Applied(i) => i == |s.history| < p.total && files[i].name !in s.recorded
       case Succeeded => p.total <= |s.history|
       case Stopped => true
  }

  /** The schema has not got beyond every run's list. */
  ghost predicate Reached(s: State) {
    |s.history| > 0 ==> exists k :: 0 <= k < |s.runners| && |s.history| <= s.runners[k].total
  }

  ghost predicate Inv(files: seq<File>, s: State) {
    && IsPrefix(files, s.recorded, s.history)
    && (forall k :: 0 <= k < |s.runners| ==> RunnerFits(files, s, s.runners[k]))
    && (forall j, k :: 0 <= j < |s.runners| && 0 <= k < |s.runners| && j != k ==>
                         !(s.runners[j].stage.Applied? && s.runners[k].stage.Applied?))
    && Reached(s)
  }

  /** Committing an open transaction extends the prefix by its file, and leaves no transaction open. */
  lemma CommitStep(files: seq<File>, s: State, k: nat)
    requires Inv(files, s) && Enabled(files, s, Commit(k)) && DistinctNames(files)
    ensures Inv(files, Apply(files, s, Commit(k)))
  {
    var t := Apply(files, s, Commit(k));
    assert RunnerFits(files, s, s.runners[k]);
    PrefixGrows(files, s.recorded, s.history, s.runners[k].stage.i);
    forall j | 0 <= j < |t.runners|
      ensures RunnerFits(files, t, t.runners[j])
    {
      assert RunnerFits(files, s, s.runners[j]);
    }
    assert |t.history| <= t.runners[k].total;
  }

  lemma ReachedStep(files: seq<File>, s: State, a: Action)
    requires Reached(s) && Enabled(files, s, a) && !a.Commit?
    ensures Reached(Apply(files, s, a))
  {
    if |s.history| > 0 {
      var k :| 0 <= k < |s.runners| && |s.history| <= s.runners[k].total;
      assert Apply(files, s, a).runners[k].total == s.runners[k].total;
    }
  }

  lemma RunnerStep(files: seq<File>, s: State, a: Action, k: nat)
    requires Inv(files, s) && Enabled(files, s, a) && !a.Commit? && DistinctNames(files) && k < |s.runners|
    ensures RunnerFits(files, Apply(files, s, a), Apply(files, s, a).runners[k])
  {
    assert RunnerFits(files, s, s.runners[k]);
    if a == Look(k) && s.runners[k].stage.i < |files| && files[s.runners[k].stage.i].name in s.recorded {
      RecordedIsEarlier(files, s.recorded, s.history, s.runners[k].stage.i);
    }
    if a == Execute(k) {
      PrefixGrows(files, s.recorded, s.history, s.runners[k].stage.i);
    }
  }

  lemma OtherStep(files: seq<File>, s: State, a: Action)
    requires Inv(files, s) && Enabled(files, s, a) && !a.Commit? && DistinctNames(files)
    ensures Inv(files, Apply(files, s, a))
  {
    var t := Apply(files, s, a);
    ReachedStep(files, s, a);
    if a.Execute? {
      PrefixGrows(files, s.recorded, s.history, s.runners[a.k].stage.i);
    }
    forall k | 0 <= k < |t.runners|
      ensures RunnerFits(files, t, t.runners[k])
    {
      if k < |s.runners| {
        RunnerStep(files, s, a, k);
      }
    }
  }

  lemma {:induction false} AlwaysInv(files: seq<File>, r: Run, n: nat)
    requires IsRun(files, r) && DistinctNames(files) && n <= |r.acts|
    ensures Inv(files, r.states[n])
  {
    if n > 0 {
      AlwaysInv(files, r, n - 1);
      if r.acts[n - 1].Commit? {
        CommitStep(files, r.states[n - 1], r.acts[n - 1].k);
      } else {
        OtherStep(files, r.states[n - 1], r.acts[n - 1]);
      }
    }
  }

  /**
   Crash-restart and concurrent starts of binaries with ever longer lists equal one clean run: at every point of any
   number of interleaved, failed and restarted runs, each over some prefix of the files, the schema is that of a prefix
   of the files, each applied once and in order.  It includes the list of every run that has succeeded, and is just
   that list if no run had a longer one.
   */
  lemma MigrationIsExactlyOnce(files: seq<File>, r: Run, n: nat)
    requires IsRun(files, r) && DistinctNames(files) && n <= |r.acts|
    ensures var s := r.states[n];
            && IsPrefix(files, s.recorded, s.history)
            && forall k :: 0 <= k < |s.runners| && s.runners[k].stage.Succeeded? ==>
                 && s.runners[k].total <= |files| && Sections(files, s.runners[k].total) <= s.history
                 && ((forall j :: 0 <= j < |s.runners| ==> s.runners[j].total <= s.runners[k].total) ==>
                       && s.history == Sections(files, s.runners[k].total)
                       && s.recorded == Names(files, s.runners[k].total))
  {
    AlwaysInv(files, r, n);
    var s := r.states[n];
    forall k | 0 <= k < |s.runners| && s.runners[k].stage.Succeeded?
      ensures s.runners[k].total <= |s.history|
      ensures Sections(files, s.runners[k].total) <= Sections(files, |s.history|)
    {
      assert RunnerFits(files, s, s.runners[k]);
    }
  }
}
