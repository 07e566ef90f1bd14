/**
 The migration runner (packages/db/src/migrate.ts): apply order by file name, one
 transaction per migration, down undoing up. The schema is any type; the up and
 down SQL of a migration are partial functions on it.
 */
module Migrations {
  import opened Prelude
  import opened Trimming

  // ---------------------------------------------------------------- names and order

  /** JavaScript's string comparison. */
  predicate Less(a: string, b: string) {
    if b == "" then false
    else if a == "" then true
    else if a[0] != b[0] then a[0] < b[0]
    else Less(a[1..], b[1..])
  }

  predicate AtMost(a: string, b: string) { a == b || Less(a, b) }

  lemma {:induction false} LessIsTotal(a: string, b: string)
    ensures Less(a, b) || a == b || Less(b, a)
    ensures !(Less(a, b) && Less(b, a)) && !Less(a, a)
  {
    if a != "" {
      LessIsTotal(a[1..], a[1..]);
    }
    if a != "" && b != "" && a[0] == b[0] {
      LessIsTotal(a[1..], b[1..]);
      assert a == [a[0]] + a[1..] && b == [b[0]] + b[1..];
    }
  }

  lemma {:induction false} LessIsTransitive(a: string, b: string, c: string)
    requires Less(a, b) && Less(b, c)
    ensures Less(a, c)
  {
    if a != "" && a[0] == b[0] && b[0] == c[0] {
      LessIsTransitive(a[1..], b[1..], c[1..]);
    }
  }

  predicate IsStemChar(c: char) { IsDigit(c) || 'a' <= c <= 'z' || c == '_' }

  predicate StemChars(s: string) { forall i :: 0 <= i < |s| ==> IsStemChar(s[i]) }

  /** The part of MIGRATION_NAME_RE before `.sql`: digits, an underscore, more stem characters. */
  predicate IsStem(s: string) {
    && StemChars(s)
    && exists k :: 0 < k < |s| - 1 && s[k] == '_' && forall i :: 0 <= i < k ==> IsDigit(s[i])
  }

  predicate IsSplit(s: string, digits: string, rest: string) {
    && s == digits + ("_" + rest) && digits != "" && rest != ""
    && StemChars(rest) && forall i :: 0 <= i < |digits| ==> IsDigit(digits[i])
  }

  lemma StemIsSplit(s: string)
    requires IsStem(s)
    ensures exists digits, rest :: IsSplit(s, digits, rest)
  {
    var k :| 0 < k < |s| - 1 && s[k] == '_' && forall i :: 0 <= i < k ==> IsDigit(s[i]);
    assert IsSplit(s, s[..k], s[k + 1..]);
  }

  lemma SplitIsStem(s: string, digits: string, rest: string)
    requires IsSplit(s, digits, rest)
    ensures IsStem(s)
  {
    var k := |digits|;
    assert s[k] == '_' && forall i :: 0 <= i < k ==> s[i] == digits[i];
    assert forall i :: k < i < |s| ==> s[i] == rest[i - k - 1];
  }

  /** A stem is digits, an underscore and something after it. */
  lemma StemExactly(s: string)
    ensures IsStem(s) <==> exists digits, rest :: IsSplit(s, digits, rest)
  {
    if IsStem(s) { StemIsSplit(s); }
    if digits, rest :| IsSplit(s, digits, rest) { SplitIsStem(s, digits, rest); }
  }

  const SQL := ".sql"

  /** MIGRATION_NAME_RE */
  predicate IsMigrationFile(file: string) {
    |file| > 4 && file[|file| - 4..] == SQL && IsStem(file[..|file| - 4])
  }

  /** A down file never passes for an up file: its stem holds a dot. */
  lemma DownFilesAreNotMigrations(file: string)
    requires |file| >= 9 && file[|file| - 9..] == ".down.sql"
    ensures !IsMigrationFile(file)
  {
    assert file[|file| - 9..][0] == file[|file| - 9] == '.';
    assert file[..|file| - 4][|file| - 9] == '.';
  }

  /** Sorting by file name is sorting by stem, since `.` comes before every stem character. */
  lemma {:induction false} FileOrderIsStemOrder(a: string, b: string)
    requires StemChars(a) && StemChars(b)
    ensures Less(a + SQL, b + SQL) <==> Less(a, b)
  {
    if a == "" && b == "" {
      LessIsTotal(SQL, SQL);
      assert "" + SQL == SQL;
    } else if a == "" {
      assert (a + SQL)[0] == '.' && (b + SQL)[0] == b[0] && '.' < b[0];
    } else if b == "" {
      assert (b + SQL)[0] == '.' && (a + SQL)[0] == a[0] && '.' < a[0];
    } else {
      assert (a + SQL)[1..] == a[1..] + SQL && (b + SQL)[1..] == b[1..] + SQL;
      FileOrderIsStemOrder(a[1..], b[1..]);
    }
  }

  predicate Increasing(names: seq<string>) {
    forall i, j :: 0 <= i < j < |names| ==> Less(names[i], names[j])
  }

  /** listMigrations over a sorted directory: the stems of the migration files. */
  function Stems(entries: seq<string>): seq<string> {
    if entries == [] then []
    else
      var n := |entries| - 1;
      var file := entries[n];
      Stems(entries[..n]) + (if IsMigrationFile(file) then [file[..|file| - 4]] else [])
  }

  lemma {:induction false} StemsComeFromFiles(entries: seq<string>, stem: string)
    requires stem in Stems(entries)
    ensures StemChars(stem) && stem + SQL in entries
  {
    var n := |entries| - 1;
    var file := entries[n];
    if stem in Stems(entries[..n]) {
      StemsComeFromFiles(entries[..n], stem);
    } else {
      assert file == file[..|file| - 4] + SQL;
    }
  }

  /** The listing is strictly increasing by name, as the runner and `to` compare names. */
  lemma {:induction false} ListingIsSortedByName(entries: seq<string>)
    requires Increasing(entries)
    ensures Increasing(Stems(entries))
  {
    if entries != [] {
      var n := |entries| - 1;
      var front, file := Stems(entries[..n]), entries[n];
      ListingIsSortedByName(entries[..n]);
      if IsMigrationFile(file) {
        var stem := file[..|file| - 4];
        forall i | 0 <= i < |front|
          ensures Less(front[i], stem)
        {
          StemsComeFromFiles(entries[..n], front[i]);
          assert file == stem + SQL;
          FileOrderIsStemOrder(front[i], stem);
        }
      }
    }
  }

  // ---------------------------------------------------------------- the database

  /** One migration: what its SQL does to the schema, None when the SQL fails. */
  datatype Migration<!S> = Migration(name: string, checksum: string, up: S -> Option<S>, down: S -> Option<S>)

  /** What goes wrong around a migration's transaction. */
  datatype Fault = Clean | StatementFails | CommitFails | CommitUnacknowledged

  type Applied = map<string, string>

  predicate Listed<S>(ms: seq<Migration<S>>) {
    forall i, j :: 0 <= i < j < |ms| ==> Less(ms[i].name, ms[j].name)
  }

  /** What listMigrations returns is a list the runner can rely on. */
  lemma {:induction false} ListedFromDirectory<S>(entries: seq<string>, ms: seq<Migration<S>>)
    requires Increasing(entries)
    requires |ms| == |Stems(entries)| && forall i :: 0 <= i < |ms| ==> ms[i].name == Stems(entries)[i]
    ensures Listed(ms)
  {
    ListingIsSortedByName(entries);
  }

  /** The schema after the first k migrations. */
  function Fold<S>(base: S, ms: seq<Migration<S>>, k: nat): Option<S>
    requires k <= |ms|
  {
    if k == 0 then Some(base)
    else
      match Fold(base, ms, k - 1)
      case None => None
      case Some(s) => ms[k - 1].up(s)
  }

  /** The table after the first k migrations. */
  function Recorded<S>(ms: seq<Migration<S>>, k: nat): Applied
    requires k <= |ms|
  {
    if k == 0 then map[] else Recorded(ms, k - 1)[ms[k - 1].name := ms[k - 1].checksum]
  }

  lemma {:induction false} RecordedHolds<S>(ms: seq<Migration<S>>, k: nat, i: nat)
    requires Listed(ms) && k <= |ms| && i < |ms|
    ensures ms[i].name in Recorded(ms, k) <==> i < k
    ensures i < k ==> Recorded(ms, k)[ms[i].name] == ms[i].checksum
  {
    if k > 0 {
      RecordedHolds(ms, k - 1, i);
      if i < k - 1 {
        LessIsTotal(ms[i].name, ms[k - 1].name);
      } else if k - 1 < i {
        LessIsTotal(ms[k - 1].name, ms[i].name);
      }
    }
  }

  lemma {:induction false} RecordedNames<S>(ms: seq<Migration<S>>, k: nat, name: string)
    requires k <= |ms|
    ensures name in Recorded(ms, k) <==> exists i :: 0 <= i < k && ms[i].name == name
  {
    if k > 0 {
      RecordedNames(ms, k - 1, name);
      if name in Recorded(ms, k) && name != ms[k - 1].name {
        var i :| 0 <= i < k - 1 && ms[i].name == name;
      }
    }
  }

  /** The first n migrations are recorded with the checksums they have now. */
  predicate Unedited<S>(ms: seq<Migration<S>>, applied: Applied, n: nat)
    requires n <= |ms|
  {
    forall j :: 0 <= j < n ==> ms[j].name in applied && applied[ms[j].name] == ms[j].checksum
  }

  /** The first k migrations are applied, in schema and table alike; recorded checksums may differ. */
  ghost predicate AtPrefix<S>(base: S, ms: seq<Migration<S>>, k: nat, schema: S, applied: Applied) {
    k <= |ms| && Fold(base, ms, k) == Some(schema) && applied.Keys == Recorded(ms, k).Keys
  }

  /** Each down undoes its up, wherever the list can be. */
  ghost predicate Undoes<S>(base: S, ms: seq<Migration<S>>) {
    forall k {:trigger ms[k].down} :: 0 <= k < |ms| && Fold(base, ms, k + 1).Some? ==>
      ms[k].down(Fold(base, ms, k + 1).value) == Fold(base, ms, k)
  }

  /** Names up to `to`, all of them when `to` is empty: how many stay. */
  function Stay<S>(ms: seq<Migration<S>>, to: string, k: nat): nat
    requires k <= |ms|
    ensures Stay(ms, to, k) <= k
  {
    if k > 0 && (to == "" || !AtMost(ms[k - 1].name, to)) then Stay(ms, to, k - 1) else k
  }

  lemma {:induction false} StayMeaning<S>(ms: seq<Migration<S>>, to: string, k: nat)
    requires Listed(ms) && k <= |ms|
    ensures forall i :: 0 <= i < k ==> (i < Stay(ms, to, k) <==> to != "" && AtMost(ms[i].name, to))
  {
    if k > 0 {
      var n := Stay(ms, to, k);
      if to == "" || !AtMost(ms[k - 1].name, to) {
        StayMeaning(ms, to, k - 1);
        assert n == Stay(ms, to, k - 1) && n <= k - 1;
        forall i | 0 <= i < k
          ensures i < n <==> to != "" && AtMost(ms[i].name, to)
        {
        }
      } else {
        forall i | 0 <= i < k
          ensures i < n && AtMost(ms[i].name, to)
        {
          if i < k - 1 && ms[k - 1].name != to {
            LessIsTransitive(ms[i].name, ms[k - 1].name, to);
          }
        }
      }
    }
  }

  /** How one transaction ended. */
  datatype Ended = Committed | RolledBack | CommittedUnheard

  predicate CleanFrom(faults: nat -> Fault, k: nat, n: nat) { forall i :: k <= i < n ==> faults(i) == Clean }

  class Database<!S> {
    var schema: S
    /** The schema_migrations table. */
    var applied: Applied

    constructor (base: S)
      ensures schema == base && applied == map[]
    {
      schema, applied := base, map[];
    }

    /** BEGIN, the SQL, the table write, COMMIT; ROLLBACK on the way out of an error. */
    method Transact(next: Option<S>, table: Applied, fault: Fault) returns (ended: Ended)
      modifies this
      ensures ended.RolledBack? <==> next.None? || fault.StatementFails? || fault.CommitFails?
      ensures ended.RolledBack? ==> schema == old(schema) && applied == old(applied)
      ensures !ended.RolledBack? ==> Some(schema) == next && applied == table
      ensures ended.CommittedUnheard? <==> next.Some? && fault.CommitUnacknowledged?
    {
      if next.None? || fault.StatementFails? || fault.CommitFails? {
        return RolledBack;
      }
      schema, applied := next.value, table;
      ended := if fault.CommitUnacknowledged? then CommittedUnheard else Committed;
    }

    /** One pending migration: its up and its record in one transaction, and its name when that was acknowledged. */
    method Pending(ghost base: S, ms: seq<Migration<S>>, i: nat, fault: Fault, names: seq<string>, ghost k: nat)
      returns (ended: Ended, more: seq<string>)
      requires k <= i < |ms| && AtPrefix(base, ms, i, schema, applied) && names == Names(ms, k, i)
      modifies this
      ensures ended.RolledBack? <==> Fold(base, ms, i + 1).None? || fault.StatementFails? || fault.CommitFails?
      ensures ended.RolledBack? ==> schema == old(schema) && applied == old(applied)
      ensures !ended.RolledBack? ==> AtPrefix(base, ms, i + 1, schema, applied)
      ensures !ended.RolledBack? && old(applied) == Recorded(ms, i) ==> applied == Recorded(ms, i + 1)
      ensures ended.CommittedUnheard? ==> fault.CommitUnacknowledged?
      ensures ended.Committed? ==> more == Names(ms, k, i + 1)
    {
      var m := ms[i];
      ended := Transact(m.up(schema), applied[m.name := m.checksum], fault);
      NamesOneMore(ms, k, i);
      more := if ended.Committed? then names + [m.name] else names;
    }

    /**
     migrateUp. `faults` says what goes wrong at each listed migration. However it
     ends, the database is at a prefix of the list, no shorter than before. An
     edited migration among the applied ones stops it before it changes anything.
     */
    method MigrateUp(ghost base: S, ms: seq<Migration<S>>, faults: nat -> Fault, ghost k: nat)
      returns (justApplied: Result<seq<string>>, ghost reached: nat)
      requires Listed(ms) && AtPrefix(base, ms, k, schema, applied)
      modifies this
      ensures k <= reached && AtPrefix(base, ms, reached, schema, applied)
      ensures old(applied) != Recorded(ms, k) ==>
        justApplied.Thrown? && schema == old(schema) && applied == old(applied)
      ensures old(applied) == Recorded(ms, k) ==> applied == Recorded(ms, reached)
      ensures justApplied.Ok? ==> reached == |ms| && justApplied.value == Names(ms, k, |ms|)
      ensures (old(applied) == Recorded(ms, k) && Fold(base, ms, |ms|).Some?
               && CleanFrom(faults, k, |ms|)) ==> justApplied.Ok?
    {
      reached := k;
      var known := applied;
      var names := [];
      ghost var intact := known == Recorded(ms, k);
      FoldReaches(base, ms, |ms|);
      for i := 0 to |ms|
        invariant reached == if i <= k then k else i
        invariant AtPrefix(base, ms, reached, schema, applied) && names == Names(ms, k, reached)
        invariant i <= k ==> schema == old(schema) && applied == known && Unedited(ms, known, i)
        invariant intact ==> applied == Recorded(ms, reached)
        invariant k < i ==> intact
      {
        RecordedHolds(ms, k, i);
        if ms[i].name in known {
          if known[ms[i].name] != ms[i].checksum {
            return Thrown, reached;
          }
        } else {
          if i == k { AllMatch(ms, k, known); }
          var ended;
          ended, names := Pending(base, ms, i, faults(i), names, k);
          if !ended.RolledBack? { reached := i + 1; }
          if !ended.Committed? {
            return Thrown, reached;
          }
        }
      }
      if k == |ms| { AllMatch(ms, k, known); }
      justApplied := Ok(names);
    }

    /** The last applied migration: its down and the loss of its record in one transaction, and its name when that was acknowledged. */
    method Undo(ghost base: S, ms: seq<Migration<S>>, i: nat, fault: Fault, names: seq<string>, ghost k: nat)
      returns (ended: Ended, more: seq<string>)
      requires Listed(ms) && Undoes(base, ms) && i < k <= |ms| && AtPrefix(base, ms, i + 1, schema, applied)
      requires names == Backwards(Names(ms, i + 1, k))
      modifies this
      ensures ended.RolledBack? ==> schema == old(schema) && applied == old(applied) && fault != Clean
      ensures !ended.RolledBack? ==> AtPrefix(base, ms, i, schema, applied)
      ensures !ended.RolledBack? && old(applied) == Recorded(ms, i + 1) ==> applied == Recorded(ms, i)
      ensures ended.CommittedUnheard? ==> fault.CommitUnacknowledged?
      ensures ended.Committed? ==> more == Backwards(Names(ms, i, k))
    {
      var m := ms[i];
      UnrecordLast(ms, i);
      ended := Transact(m.down(schema), applied - {m.name}, fault);
      more := if ended.Committed? then names + [m.name] else names;
    }

    /**
     migrateDown. However it ends, the database is at a prefix of the list, no
     longer than before; when it returns, exactly the names up to `to` are left.
     */
    method MigrateDown(ghost base: S, ms: seq<Migration<S>>, to: string, faults: nat -> Fault, ghost k: nat)
      returns (rolledBack: Result<seq<string>>, ghost reached: nat)
      requires Listed(ms) && AtPrefix(base, ms, k, schema, applied) && Undoes(base, ms)
      modifies this
      ensures Stay(ms, to, k) <= reached <= k && AtPrefix(base, ms, reached, schema, applied)
      ensures old(applied) == Recorded(ms, k) ==> applied == Recorded(ms, reached)
      ensures rolledBack.Ok? ==> reached == Stay(ms, to, k) && rolledBack.value == Backwards(Names(ms, reached, k))
      ensures CleanFrom(faults, 0, k) ==> rolledBack.Ok?
    {
      reached := k;
      var known := applied;
      var names := [];
      StayMeaning(ms, to, k);
      ghost var stay := Stay(ms, to, k);
      FoldReaches(base, ms, k);
      for i := |ms| downto 0
        invariant reached == if i >= k then k else if i >= stay then i else stay
        invariant AtPrefix(base, ms, reached, schema, applied)
        invariant known == Recorded(ms, k) ==> applied == Recorded(ms, reached)
        invariant names == Backwards(Names(ms, reached, k))
      {
        var m := ms[i];
        RecordedHolds(ms, k, i);
        if m.name in known && !(to != "" && AtMost(m.name, to)) {
          var ended;
          ended, names := Undo(base, ms, i, faults(i), names, k);
          if !ended.RolledBack? { reached := i; }
          if !ended.Committed? {
            return Thrown, reached;
          }
        }
      }
      rolledBack := Ok(names);
    }
  }

  /** The names of the migrations from i up to k. */
  function Names<S>(ms: seq<Migration<S>>, i: nat, k: nat): seq<string>
    requires i <= k <= |ms|
    decreases k - i
  {
    if i == k then [] else [ms[i].name] + Names(ms, i + 1, k)
  }

  lemma {:induction false} NamesOneMore<S>(ms: seq<Migration<S>>, k: nat, i: nat)
    requires k <= i < |ms|
    ensures Names(ms, k, i + 1) == Names(ms, k, i) + [ms[i].name]
    decreases i - k
  {
    if k < i {
      NamesOneMore(ms, k + 1, i);
    }
  }

  function Backwards(s: seq<string>): seq<string> {
    if s == [] then [] else Backwards(s[1..]) + [s[0]]
  }

  lemma {:induction false} AllMatch<S>(ms: seq<Migration<S>>, k: nat, applied: Applied)
    requires Listed(ms) && k <= |ms| && applied.Keys == Recorded(ms, k).Keys
    requires Unedited(ms, applied, k)
    ensures applied == Recorded(ms, k)
  {
    forall name | name in applied
      ensures applied[name] == Recorded(ms, k)[name]
    {
      RecordedNames(ms, k, name);
      var i :| 0 <= i < k && ms[i].name == name;
      RecordedHolds(ms, k, i);
    }
  }

  /** Reaching a prefix passes through every shorter one. */
  lemma {:induction false} FoldReaches<S>(base: S, ms: seq<Migration<S>>, k: nat)
    requires k <= |ms|
    ensures Fold(base, ms, k).Some? ==> forall i :: 0 <= i <= k ==> Fold(base, ms, i).Some?
  {
    if k > 0 {
      FoldReaches(base, ms, k - 1);
    }
  }

  lemma UnrecordLast<S>(ms: seq<Migration<S>>, i: nat)
    requires Listed(ms) && i < |ms|
    ensures Recorded(ms, i + 1) - {ms[i].name} == Recorded(ms, i)
  {
    RecordedHolds(ms, i, i);
  }

  /** After a completed down, the names left are exactly those of before that are at most `to`. */
  lemma {:induction false} DownLeavesNamesUpTo<S>(ms: seq<Migration<S>>, to: string, k: nat, name: string)
    requires Listed(ms) && k <= |ms|
    ensures name in Recorded(ms, Stay(ms, to, k))
       <==> name in Recorded(ms, k) && to != "" && AtMost(name, to)
  {
    StayMeaning(ms, to, k);
    RecordedNames(ms, k, name);
    RecordedNames(ms, Stay(ms, to, k), name);
  }

  /**
   Down and up again: after both have returned, a database that was fully migrated
   is back in the very state it was in, schema and table.
   */
  method DownThenUp<S>(
      db: Database<S>, ghost base: S, ms: seq<Migration<S>>, to: string, down: nat -> Fault, up: nat -> Fault)
    returns (ok: bool)
    requires Listed(ms) && Undoes(base, ms)
    requires AtPrefix(base, ms, |ms|, db.schema, db.applied) && db.applied == Recorded(ms, |ms|)
    modifies db
    ensures ok ==> db.schema == old(db.schema) && db.applied == old(db.applied)
    ensures (forall i: nat :: down(i) == Clean && up(i) == Clean) ==> ok
  {
    var rolledBack, k := db.MigrateDown(base, ms, to, down, |ms|);
    if rolledBack.Thrown? {
      return false;
    }
    var justApplied, n := db.MigrateUp(base, ms, up, k);
    ok := justApplied.Ok?;
  }
}
