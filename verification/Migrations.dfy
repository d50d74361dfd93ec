/** The migration runner: what it discovers, what one run executes, and what any
    number of failed runs followed by a good one leave behind. */
module Migrations {
  import opened Metrics
  import opened Decimal
  import opened Selections

  datatype DirEntry = DirEntry(name: string, regularFile: bool)
  datatype Migration = Migration(version: int, name: string)

  // ------------------------------------------------------------ discovery --

  predicate HasSqlExtension(name: string) {
    |name| > 4 && name[|name| - 4..] == ".sql"
  }

  /** A leading positive 32-bit number is the version; other files are skipped. */
  function Recognise(e: DirEntry): Option<Migration> {
    if !e.regularFile || !HasSqlExtension(e.name) then None
    else
      match FromChars(e.name, INT32_MIN, INT32_MAX)
      case Match(version, _) => if version > 0 then Some(Migration(version, e.name)) else None
      case _ => None
  }

  function Recognised(entries: seq<DirEntry>): seq<Migration> {
    if entries == [] then []
    else
      var m := Recognise(entries[|entries| - 1]);
      Recognised(entries[..|entries| - 1]) + if m.Some? then [m.value] else []
  }

  /** Exactly the regular files "<number>....sql" are migrations, where the number is
      the whole leading run of digits and lies in 1 .. 2^31 - 1. */
  lemma RecognisedIff(e: DirEntry, m: Migration)
    ensures Recognise(e) == Some(m) <==>
            && e.regularFile && (exists stem :: stem != [] && e.name == stem + ".sql") && m.name == e.name
            && (exists n: nat :: LeadsWith(e.name, n, m.version)) && 1 <= m.version <= 0x7fff_ffff
  {
    var name := e.name;
    if HasSqlExtension(name) {
      assert name == name[..|name| - 4] + ".sql";
    }
    if stem :| stem != [] && name == stem + ".sql" {
      assert name[|name| - 4..] == ".sql";
    }
    if name != [] && name[0] == '-' {
      assert forall n: nat, v: int :: !LeadsWith(name, n, v);
    } else {
      forall n: nat, v: int
        ensures FromChars(name, INT32_MIN, INT32_MAX) == Match(v, n) <==>
                LeadsWith(name, n, v) && INT32_MIN <= v <= INT32_MAX
      {
        FromCharsIff(name, INT32_MIN, INT32_MAX, v, n);
      }
    }
  }

  /** The first n characters are the leading run of digits and read as v. */
  ghost predicate LeadsWith(name: string, n: nat, v: int) {
    && 0 < n <= |name| && (forall i :: 0 <= i < n ==> IsDigit(name[i]))
    && (n == |name| || !IsDigit(name[n])) && v == ValueOf(name[..n])
  }

  lemma InitIsFirst(name: string)
    requires name == "001_init.sql"
    ensures Recognise(DirEntry(name, true)) == Some(Migration(1, name))
  {
    assert name == "001_init" + ".sql";
    assert name[..3] == (['0'] + ['0']) + ['1'];
    ReadsOne('0', '1');
    assert LeadsWith(name, 3, 1);
    RecognisedIff(DirEntry(name, true), Migration(1, name));
  }

  lemma ReadsOne(zero: char, one: char)
    requires zero == '0' && one == '1'
    ensures ValueOf(([zero] + [zero]) + [one]) == 1
  {
    assert "0123456789"[0] == zero && "0123456789"[1] == one;
    DigitValue(0);
    DigitValue(1);
    PlaceValue([zero], [zero]);
    PlaceValue([zero] + [zero], [one]);
  }

  /** The migrations of a directory are those of its entries, none left out. */
  lemma {:induction false} RecognisedSelects(entries: seq<DirEntry>) returns (at: seq<nat>)
    ensures Selects(entries, Recognise, Recognised(entries), at)
  {
    if entries == [] {
      at := [];
    } else {
      var n := |entries| - 1;
      at := RecognisedSelects(entries[..n]);
      assert entries == entries[..n] + [entries[n]];
      at := SelectsMore(entries[..n], entries[n], Recognise, Recognised(entries[..n]), at);
    }
  }

  ghost predicate ByVersion(ms: seq<Migration>) {
    forall i, j :: 0 <= i < j < |ms| ==> ms[i].version <= ms[j].version
  }

  /** A listing of a directory: its migrations, ordered by version. The order of
      equal versions is left open, as std::sort leaves it. */
  ghost predicate ListingOf(ms: seq<Migration>, dir: seq<Migration>) {
    ByVersion(ms) && multiset(ms) == multiset(dir)
  }

  method Discover(entries: seq<DirEntry>) returns (out: seq<Migration>)
    ensures ListingOf(out, Recognised(entries))
  {
    out := [];
    var i := 0;
    while i < |entries|
      invariant 0 <= i <= |entries| && ListingOf(out, Recognised(entries[..i]))
    {
      assert entries[..i + 1][..i] == entries[..i];
      var m := Recognise(entries[i]);
      if m.Some? { out := InsertByVersion(out, m.value); }
      i := i + 1;
    }
    assert entries[..i] == entries;
  }

  method InsertByVersion(ms: seq<Migration>, m: Migration) returns (out: seq<Migration>)
    requires ByVersion(ms)
    ensures ByVersion(out) && multiset(out) == multiset(ms) + multiset{m}
  {
    var j := 0;
    while j < |ms| && ms[j].version <= m.version
      invariant 0 <= j <= |ms|
      invariant forall k :: 0 <= k < j ==> ms[k].version <= m.version
    {
      j := j + 1;
    }
    out := ms[..j] + [m] + ms[j..];
    assert ms == ms[..j] + ms[j..];
  }

  // -------------------------------------------------------------- one run --

  /** The schema version, and the scripts committed so far. */
  datatype Schema = Schema(version: int, executed: seq<Migration>)

  /** `fails` says which migration of the listing throws and is rolled back. */
  function Migrate(s: Schema, ms: seq<Migration>, fails: nat -> bool, i: nat): (Schema, bool)
    requires i <= |ms|
    decreases |ms| - i
  {
    if i == |ms| then (s, true)
    else if ms[i].version <= s.version then Migrate(s, ms, fails, i + 1)
    else if fails(i) then (s, false)
    else Migrate(Schema(ms[i].version, s.executed + [ms[i]]), ms, fails, i + 1)
  }

  class Database {
    var userVersion: int
    ghost var executed: seq<Migration>

    ghost function View(): Schema reads this { Schema(userVersion, executed) }

    /** One transaction: the script and the version together, or neither. */
    method RunScript(m: Migration, fails: bool) returns (ok: bool)
      modifies this
      ensures ok == !fails
      ensures View() == if ok then Schema(m.version, old(executed) + [m]) else old(View())
    {
      if fails { return false; }
      userVersion := m.version;
      executed := executed + [m];
      return true;
    }

    /** A missing directory throws before anything is executed. */
    method ApplyMigrations(dir: Option<seq<DirEntry>>, fails: nat -> bool)
      returns (ok: bool, current: int, ghost listing: seq<Migration>)
      modifies this
      ensures dir.None? ==> !ok && View() == old(View())
      ensures dir.Some? ==> ListingOf(listing, Recognised(dir.value)) &&
                            (View(), ok) == Migrate(old(View()), listing, fails, 0)
      ensures ok ==> current == userVersion
    {
      current := userVersion;
      if dir.None? { return false, current, []; }
      var ms := Discover(dir.value);
      listing := ms;
      var i := 0;
      while i < |ms|
        invariant 0 <= i <= |ms| && current == userVersion
        invariant Migrate(View(), ms, fails, i) == Migrate(old(View()), ms, fails, 0)
      {
        if ms[i].version > current {
          ok := RunScript(ms[i], fails(i));
          if !ok { return; }
          current := ms[i].version;
        }
        i := i + 1;
      }
      ok := true;
    }
  }

  // ------------------------------------------------------------- all runs --

  ghost predicate Increasing(ms: seq<Migration>) {
    forall i, j :: 0 <= i < j < |ms| ==> ms[i].version < ms[j].version
  }

  ghost predicate HasVersion(ms: seq<Migration>, v: int) {
    exists i :: 0 <= i < |ms| && ms[i].version == v
  }

  /** From version v0 exactly the directory's versions up to the current one have
      been executed, each once and in order. */
  ghost predicate Progress(v0: int, dir: seq<Migration>, s: Schema) {
    && Increasing(s.executed)
    && (forall m :: m in s.executed ==> m in dir)
    && (forall v :: HasVersion(s.executed, v) <==> HasVersion(dir, v) && v0 < v <= s.version)
    && s.version == if s.executed == [] then v0 else s.executed[|s.executed| - 1].version
  }

  lemma SameVersions(ms: seq<Migration>, dir: seq<Migration>, v: int)
    requires multiset(ms) == multiset(dir)
    ensures HasVersion(ms, v) <==> HasVersion(dir, v)
  {
    if HasVersion(ms, v) {
      var i :| 0 <= i < |ms| && ms[i].version == v;
      assert ms[i] in multiset(dir);
      var j :| 0 <= j < |dir| && dir[j] == ms[i];
    }
    if HasVersion(dir, v) {
      var i :| 0 <= i < |dir| && dir[i].version == v;
      assert dir[i] in multiset(ms);
      var j :| 0 <= j < |ms| && ms[j] == dir[i];
    }
  }

  lemma VersionAppend(ms: seq<Migration>, m: Migration, v: int)
    ensures HasVersion(ms + [m], v) <==> HasVersion(ms, v) || m.version == v
  {
    if HasVersion(ms, v) {
      var i :| 0 <= i < |ms| && ms[i].version == v;
      assert (ms + [m])[i].version == v;
    }
    if m.version == v { assert (ms + [m])[|ms|].version == v; }
  }

  /** Running the next script of a listing keeps the account. */
  lemma ScriptKeepsProgress(v0: int, dir: seq<Migration>, s: Schema, ms: seq<Migration>, i: nat)
    requires Progress(v0, dir, s) && ListingOf(ms, dir) && i < |ms|
    requires s.version < ms[i].version
    requires forall k :: 0 <= k < i ==> ms[k].version <= s.version
    ensures Progress(v0, dir, Schema(ms[i].version, s.executed + [ms[i]]))
  {
    var m, done := ms[i], s.executed + [ms[i]];
    assert m in multiset(dir);
    LastIsLargest(v0, dir, s);
    assert Increasing(done);
    forall v ensures HasVersion(done, v) <==> HasVersion(dir, v) && v0 < v <= m.version {
      VersionAppend(s.executed, m, v);
      SameVersions(ms, dir, v);
      if HasVersion(dir, v) && s.version < v <= m.version {
        var k :| 0 <= k < |ms| && ms[k].version == v;
        assert i <= k;
      }
      if v == m.version { assert HasVersion(ms, v); }
    }
  }

  lemma LastIsLargest(v0: int, dir: seq<Migration>, s: Schema)
    requires Progress(v0, dir, s)
    ensures v0 <= s.version && forall k :: 0 <= k < |s.executed| ==> s.executed[k].version <= s.version
  {
    if s.executed != [] {
      assert HasVersion(s.executed, s.version);
    }
  }

  lemma {:induction false} RunKeepsProgress(v0: int, dir: seq<Migration>, s: Schema, ms: seq<Migration>,
                                            fails: nat -> bool, i: nat)
    requires Progress(v0, dir, s) && ListingOf(ms, dir) && i <= |ms|
    requires forall k :: 0 <= k < i ==> ms[k].version <= s.version
    ensures var (s', ok) := Migrate(s, ms, fails, i);
            && Progress(v0, dir, s') && s.version <= s'.version && s.executed <= s'.executed
            && (ok ==> forall k :: 0 <= k < |ms| ==> ms[k].version <= s'.version)
    decreases |ms| - i
  {
    if i < |ms| {
      if ms[i].version <= s.version {
        RunKeepsProgress(v0, dir, s, ms, fails, i + 1);
      } else if !fails(i) {
        ScriptKeepsProgress(v0, dir, s, ms, i);
        RunKeepsProgress(v0, dir, Schema(ms[i].version, s.executed + [ms[i]]), ms, fails, i + 1);
      }
    }
  }

  /** One start of the program: the listing it saw and where it failed. */
  datatype Attempt = Attempt(listing: seq<Migration>, fails: nat -> bool)

  ghost predicate SameDirectory(attempts: seq<Attempt>, dir: seq<Migration>) {
    forall i :: 0 <= i < |attempts| ==> ListingOf(attempts[i].listing, dir)
  }

  function After(s: Schema, attempts: seq<Attempt>): Schema {
    if attempts == [] then s
    else
      var last := attempts[|attempts| - 1];
      Migrate(After(s, attempts[..|attempts| - 1]), last.listing, last.fails, 0).0
  }

  lemma {:induction false} AttemptsKeepProgress(v0: int, dir: seq<Migration>, attempts: seq<Attempt>)
    requires SameDirectory(attempts, dir)
    ensures Progress(v0, dir, After(Schema(v0, []), attempts))
  {
    if attempts == [] {
      forall v ensures !HasVersion([], v) {}
    } else {
      var n := |attempts| - 1;
      AttemptsKeepProgress(v0, dir, attempts[..n]);
      RunKeepsProgress(v0, dir, After(Schema(v0, []), attempts[..n]), attempts[n].listing, attempts[n].fails, 0);
    }
  }

  lemma {:induction false} NothingLeftToDo(s: Schema, ms: seq<Migration>, fails: nat -> bool, i: nat)
    requires i <= |ms| && forall k :: 0 <= k < |ms| ==> ms[k].version <= s.version
    ensures Migrate(s, ms, fails, i) == (s, true)
    decreases |ms| - i
  {
    if i < |ms| { NothingLeftToDo(s, ms, fails, i + 1); }
  }

  /** However many runs failed and rolled back, wherever they failed, after a run
      that succeeds the executed scripts are strictly increasing, cover each
      version above the initial one exactly once, the schema version is the
      largest of all, and a further run executes nothing. */
  lemma MigrationsSurviveFailure(v0: int, dir: seq<Migration>, attempts: seq<Attempt>, last: Attempt, again: Attempt)
    requires SameDirectory(attempts, dir) && ListingOf(last.listing, dir) && ListingOf(again.listing, dir)
    requires Migrate(After(Schema(v0, []), attempts), last.listing, last.fails, 0).1
    ensures var s := Migrate(After(Schema(v0, []), attempts), last.listing, last.fails, 0).0;
            && Increasing(s.executed) && (forall m :: m in s.executed ==> m in dir)
            && (forall v :: HasVersion(s.executed, v) <==> HasVersion(dir, v) && v0 < v)
            && v0 <= s.version && (s.version == v0 || HasVersion(dir, s.version))
            && (forall v :: HasVersion(dir, v) ==> v <= s.version)
            && Migrate(s, again.listing, again.fails, 0) == (s, true)
  {
    var before := After(Schema(v0, []), attempts);
    AttemptsKeepProgress(v0, dir, attempts);
    RunKeepsProgress(v0, dir, before, last.listing, last.fails, 0);
    var s := Migrate(before, last.listing, last.fails, 0).0;
    LastIsLargest(v0, dir, s);
    forall v | HasVersion(dir, v) ensures v <= s.version { SameVersions(last.listing, dir, v); }
    if s.executed != [] { assert HasVersion(s.executed, s.version); }
    forall k | 0 <= k < |again.listing| ensures again.listing[k].version <= s.version {
      SameVersions(again.listing, dir, again.listing[k].version);
    }
    NothingLeftToDo(s, again.listing, again.fails, 0);
  }

  /** No two scripts of a directory above v0 carry one version. */
  ghost predicate OneScriptPerVersion(v0: int, dir: seq<Migration>) {
    forall m, n :: m in dir && n in dir && v0 < m.version && m.version == n.version ==> m == n
  }

  /** Versions are covered, scripts need not be: after a run that succeeds every
      script above v0 has been executed if and only if their versions differ. */
  lemma EveryScriptRunsIff(v0: int, dir: seq<Migration>, attempts: seq<Attempt>, last: Attempt)
    requires SameDirectory(attempts, dir) && ListingOf(last.listing, dir)
    requires Migrate(After(Schema(v0, []), attempts), last.listing, last.fails, 0).1
    ensures var s := Migrate(After(Schema(v0, []), attempts), last.listing, last.fails, 0).0;
            (forall m :: m in dir && v0 < m.version ==> m in s.executed) <==> OneScriptPerVersion(v0, dir)
  {
    MigrationsSurviveFailure(v0, dir, attempts, last, last);
    CoverIffDistinct(v0, dir, Migrate(After(Schema(v0, []), attempts), last.listing, last.fails, 0).0.executed);
  }

  lemma CoverIffDistinct(v0: int, dir: seq<Migration>, executed: seq<Migration>)
    requires Increasing(executed) && forall m :: m in executed ==> m in dir
    requires forall v :: HasVersion(executed, v) <==> HasVersion(dir, v) && v0 < v
    ensures (forall m :: m in dir && v0 < m.version ==> m in executed) <==> OneScriptPerVersion(v0, dir)
  {
    if OneScriptPerVersion(v0, dir) {
      forall m | m in dir && v0 < m.version ensures m in executed {
        assert HasVersion(dir, m.version);
        var i :| 0 <= i < |executed| && executed[i].version == m.version;
        assert executed[i] in dir;
      }
    }
    if forall m :: m in dir && v0 < m.version ==> m in executed {
      forall m, n | m in dir && n in dir && v0 < m.version && m.version == n.version ensures m == n {
        SameVersionSameScript(executed, m, n);
      }
    }
  }

  lemma SameVersionSameScript(ms: seq<Migration>, m: Migration, n: Migration)
    requires Increasing(ms) && m in ms && n in ms && m.version == n.version
    ensures m == n
  {
    var i :| 0 <= i < |ms| && ms[i] == m;
    var j :| 0 <= j < |ms| && ms[j] == n;
    assert !(i < j) && !(j < i);
  }

  /** Two files of one version: the first listed runs, the run reports success, and
      no later run takes up the second. */
  lemma SecondScriptIsSkipped(fails: nat -> bool, again: Attempt)
    requires !fails(0)
    requires ListingOf(again.listing, [Migration(7, "007_prices.sql"), Migration(7, "007_tags.sql")])
    ensures var s := Schema(7, [Migration(7, "007_prices.sql")]);
            && Migrate(Schema(6, []), [Migration(7, "007_prices.sql"), Migration(7, "007_tags.sql")], fails, 0) == (s, true)
            && Migrate(s, again.listing, again.fails, 0) == (s, true)
  {
    var prices, tags := Migration(7, "007_prices.sql"), Migration(7, "007_tags.sql");
    assert [] + [prices] == [prices];
    var s := Schema(7, [prices]);
    assert Migrate(s, [prices, tags], fails, 1) == Migrate(s, [prices, tags], fails, 2) == (s, true);
    forall k | 0 <= k < |again.listing| ensures again.listing[k].version <= 7 {
      assert again.listing[k] in multiset([prices, tags]);
    }
    NothingLeftToDo(s, again.listing, again.fails, 0);
  }
}
