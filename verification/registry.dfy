/**
 * The static driver table of dbif.c and its lookup nb_db_match. Which
 * drivers the table holds is fixed when the program is built; the table
 * always ends with a NULL sentinel.
 */
module Registry {

  /** The HAVE_* build switches that select the table's entries. */
  datatype Config = Config(
    leveldb: bool,
    nessdb: bool,
    cascadedb: bool,
    berkeleydb: bool,
    kyotocabinet: bool)

  /** A driver interface; only its name takes part in the lookup. The
      callbacks are oracles of the benchmark runs. */
  datatype DbIf = DbIf(name: string)

  /** An entry of nb_dbs: a driver, or the NULL that ends the table. */
  datatype Entry = Driver(db: DbIf) | Null

  /** Every name a table entry can have. */
  const KnownNames: set<string> :=
    {"leveldb", "nessdb", "cascadedb", "berkeleydb", "kyotocabinet"}

  /** nb_dbs for a build configuration: the configured drivers in a fixed
      order, then NULL. */
  function Table(c: Config): (t: seq<Entry>)
    ensures |t| >= 1 && t[|t| - 1] == Null
    ensures forall i :: 0 <= i < |t| - 1 ==> t[i].Driver? && t[i].db.name in KnownNames
  {
    (if c.leveldb then [Driver(DbIf("leveldb"))] else [])
    + (if c.nessdb then [Driver(DbIf("nessdb"))] else [])
    + (if c.cascadedb then [Driver(DbIf("cascadedb"))] else [])
    + (if c.berkeleydb then [Driver(DbIf("berkeleydb"))] else [])
    + (if c.kyotocabinet then [Driver(DbIf("kyotocabinet"))] else [])
    + [Null]
  }

  /** The table has a NULL entry, and the lookup stops at the first one. */
  ghost predicate Terminated(t: seq<Entry>) {
    exists k :: 0 <= k < |t| && t[k].Null?
  }

  /** Index of the first NULL entry. */
  function FirstNull(t: seq<Entry>): (k: nat)
    requires Terminated(t)
    ensures k < |t| && t[k].Null? && forall i :: 0 <= i < k ==> t[i].Driver?
  {
    if t[0].Null? then 0
    else
      assert Terminated(t[1..]) by {
        var k :| 0 <= k < |t| && t[k].Null?;
        assert t[1..][k - 1].Null?;
      }
      1 + FirstNull(t[1..])
  }

  /** A reference for the lookup: the first entry before the sentinel
      with the given name, or NULL. */
  function Lookup(t: seq<Entry>, name: string): Entry
    decreases |t|
  {
    if |t| == 0 || t[0].Null? then Null
    else if t[0].db.name == name then t[0]
    else Lookup(t[1..], name)
  }

  /** The reference finds the first matching entry before the first NULL,
      and finds NULL exactly when there is none. */
  lemma {:induction false} LookupFirst(t: seq<Entry>, name: string)
    requires Terminated(t)
    ensures var r := Lookup(t, name);
      && (r.Null? <==> forall i :: 0 <= i < FirstNull(t) ==> t[i].db.name != name)
      && (r.Driver? ==>
            (exists i :: 0 <= i < FirstNull(t) && t[i] == r && r.db.name == name
                         && forall j :: 0 <= j < i ==> t[j].db.name != name))
    decreases |t|
  {
    if t[0].Driver? && t[0].db.name != name {
      var u := t[1..];
      assert Terminated(u) by {
        var k :| 0 <= k < |t| && t[k].Null?;
        assert u[k - 1].Null?;
      }
      LookupFirst(u, name);
      assert FirstNull(t) == 1 + FirstNull(u);
      var r := Lookup(u, name);
      if r.Driver? {
        var i :| 0 <= i < FirstNull(u) && u[i] == r && r.db.name == name
            && forall j :: 0 <= j < i ==> u[j].db.name != name;
        assert t[i + 1] == r;
        assert forall j :: 0 <= j < i + 1 ==> t[j].db.name != name by {
          forall j | 0 <= j < i + 1 ensures t[j].db.name != name {
            if j > 0 { assert t[j] == u[j - 1]; }
          }
        }
      } else {
        forall i | 0 <= i < FirstNull(t) ensures t[i].db.name != name {
          if i > 0 { assert t[i] == u[i - 1]; }
        }
      }
    }
  }

  /** nb_db_match: scan the table until the NULL sentinel and return the
      first entry with the given name. examined counts the entries read,
      so the scan never reads past the sentinel. */
  method Match(t: seq<Entry>, name: string) returns (r: Entry, examined: nat)
    requires Terminated(t)
    ensures r == Lookup(t, name)
    ensures r.Driver? ==> r.db.name == name
    ensures examined <= FirstNull(t) + 1
  {
    var k := FirstNull(t);
    var i := 0;
    while t[i].Driver?
      invariant i <= k
      invariant Lookup(t, name) == Lookup(t[i..], name)
      decreases k - i
    {
      if t[i].db.name == name {
        return t[i], i + 1;
      }
      assert t[i..][1..] == t[i + 1..];
      i := i + 1;
    }
    return Null, i + 1;
  }

  /** Every build configuration ends its table with the sentinel, so the
      lookup is defined on it, and no configuration can select "tokukv":
      the table has no entry for it. */
  lemma TokuNeverMatched(c: Config)
    ensures Terminated(Table(c))
    ensures Lookup(Table(c), "tokukv") == Null
  {
    var t := Table(c);
    assert t[|t| - 1].Null?;
    LookupFirst(t, "tokukv");
    assert "tokukv" !in KnownNames;
  }
}
