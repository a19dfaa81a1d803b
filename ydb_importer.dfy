/** YdbImporter: the stages that hand the tables to worker tasks and fold the
    tasks' outcomes back into the tables (the failure flags, the metadata, the
    adopted structure of tables that exist already), the relaxation of an
    existing table's columns to optional types, and the worker thread factory. */
module YdbImporter {
  import opened Wrappers
  import opened YdbTypes
  import opened Tables
  import opened Text

  // ---------------------------------------------------------------------------
  // adjustTargetStructure

  /** A column of an existing target table, as its description lists it. */
  datatype TableColumn = TableColumn(name: string, ty: Type)

  /** The type a column takes in the adjusted structure: kept when optional,
      otherwise made optional. */
  function Relax(t: Type): (r: Type)
    ensures r.Optional? && Innermost(r) == Innermost(t)
    ensures r == t || r == Optional(t)
    ensures r == t <==> t.Optional?
  {
    if t.Optional? then t else Optional(t)
  }

  /** The name-to-type map adjustTargetStructure fills from the first k columns. */
  function Relaxed(columns: seq<TableColumn>, k: nat): map<string, Type>
    requires k <= |columns|
  {
    if k == 0 then map[] else Relaxed(columns, k - 1)[columns[k - 1].name := Relax(columns[k - 1].ty)]
  }

  /** Column c is the last of its name among the first k columns. */
  predicate LastOfName(columns: seq<TableColumn>, c: nat, k: nat)
    requires k <= |columns|
  {
    c < k && forall j :: c < j < k ==> columns[j].name != columns[c].name
  }

  /** Every column's name is a key of the map. */
  lemma {:induction false} RelaxedKeys(columns: seq<TableColumn>, k: nat)
    requires k <= |columns|
    ensures forall c :: 0 <= c < k ==> columns[c].name in Relaxed(columns, k)
  {
    if k > 0 {
      RelaxedKeys(columns, k - 1);
    }
  }

  /** Each key maps to the relaxed type of the last column that carries it. */
  lemma {:induction false} RelaxedLast(columns: seq<TableColumn>, k: nat)
    requires k <= |columns|
    ensures forall n :: n in Relaxed(columns, k) ==>
      exists c :: 0 <= c < k && LastOfName(columns, c, k) && columns[c].name == n
                  && Relaxed(columns, k)[n] == Relax(columns[c].ty)
  {
    if k > 0 {
      RelaxedLast(columns, k - 1);
      var m0 := Relaxed(columns, k - 1);
      var last := columns[k - 1];
      var m := m0[last.name := Relax(last.ty)];
      assert Relaxed(columns, k) == m;
      forall n | n in m
        ensures exists c :: 0 <= c < k && LastOfName(columns, c, k) && columns[c].name == n && m[n] == Relax(columns[c].ty)
      {
        if n == last.name {
          assert LastOfName(columns, k - 1, k);
        } else {
          var c :| 0 <= c < k - 1 && LastOfName(columns, c, k - 1) && columns[c].name == n && m0[n] == Relax(columns[c].ty);
          assert LastOfName(columns, c, k);
        }
      }
    }
  }

  /** The loop of adjustTargetStructure: every column of the description put
      into the map under its name, optional. */
  method RelaxColumns(columns: seq<TableColumn>) returns (fields: map<string, Type>)
    ensures fields == Relaxed(columns, |columns|)
  {
    fields := map[];
    for i := 0 to |columns|
      invariant fields == Relaxed(columns, i)
    {
      var tc := columns[i];
      if tc.ty.Optional? {
        fields := fields[tc.name := tc.ty];
      } else {
        fields := fields[tc.name := Optional(tc.ty)];
      }
    }
  }

  /** What StructType.of promises for a map: each name of the map once, with its type. */
  predicate ListsMap(s: StructType, m: map<string, Type>)
  {
    (forall i :: 0 <= i < |s| ==> s[i].name in m && m[s[i].name] == s[i].ty)
    && (forall n :: n in m ==> exists i :: 0 <= i < |s| && s[i].name == n)
    && (forall i, j :: 0 <= i < j < |s| ==> s[i].name != s[j].name)
  }

  /** adjustTargetStructure: the table takes the structure of the existing
      table, every column made optional; the member order is StructType.of's. */
  method AdjustTargetStructure(table: TargetTable, desc: seq<TableColumn>, structOf: map<string, Type> -> StructType)
    modifies table`fields
    ensures table.fields == structOf(Relaxed(desc, |desc|))
  {
    var fields := RelaxColumns(desc);
    table.fields := structOf(fields);
  }

  /** The adjusted structure: the member names are exactly the column names,
      each once; every member is optional and has the type of the last column
      of its name, unchanged when optional already and wrapped once otherwise. */
  lemma AdjustedStructure(desc: seq<TableColumn>, s: StructType)
    requires ListsMap(s, Relaxed(desc, |desc|))
    ensures forall c :: 0 <= c < |desc| ==> exists i :: 0 <= i < |s| && s[i].name == desc[c].name
    ensures forall i, j :: 0 <= i < j < |s| ==> s[i].name != s[j].name
    ensures forall i :: 0 <= i < |s| ==>
      s[i].ty.Optional?
      && exists c :: 0 <= c < |desc| && LastOfName(desc, c, |desc|) && desc[c].name == s[i].name
                     && (s[i].ty == desc[c].ty || s[i].ty == Optional(desc[c].ty))
                     && (s[i].ty == desc[c].ty <==> desc[c].ty.Optional?)
  {
    RelaxedKeys(desc, |desc|);
    RelaxedLast(desc, |desc|);
  }

  // ---------------------------------------------------------------------------
  // retrieveSourceMetadata

  /** What a metadata task reports for the table it was given: success, and
      the metadata it read. */
  datatype MetadataOut = MetadataOut(success: bool, metadata: TableMetadata)

  /** The tables among the first k whose metadata task succeeded, in submission order. */
  function Succeeded(tables: seq<TableDecision>, outcomes: seq<MetadataOut>, k: nat): seq<TableDecision>
    requires k <= |tables| == |outcomes|
  {
    if k == 0 then []
    else Succeeded(tables, outcomes, k - 1) + (if outcomes[k - 1].success then [tables[k - 1]] else [])
  }

  /** The kept tables are those with a successful outcome, no more than were submitted. */
  lemma {:induction false} SucceededMembers(tables: seq<TableDecision>, outcomes: seq<MetadataOut>, k: nat)
    requires k <= |tables| == |outcomes|
    ensures |Succeeded(tables, outcomes, k)| <= k
    ensures forall t :: t in Succeeded(tables, outcomes, k) <==>
      exists i :: 0 <= i < k && outcomes[i].success && tables[i] == t
  {
    if k > 0 {
      SucceededMembers(tables, outcomes, k - 1);
    }
  }

  /** Outcome i succeeded, and no later outcome among the first k for its table did. */
  predicate LastSuccessFor(tables: seq<TableDecision>, outcomes: seq<MetadataOut>, i: nat, k: nat)
    requires k <= |tables| == |outcomes|
  {
    i < k && outcomes[i].success && forall j :: i < j < k && tables[j] == tables[i] ==> !outcomes[j].success
  }

  /** No outcome among the first k for table t succeeded. */
  predicate NoSuccessFor(tables: seq<TableDecision>, outcomes: seq<MetadataOut>, t: TableDecision, k: nat)
    requires k <= |tables| == |outcomes|
  {
    forall j :: 0 <= j < k && tables[j] == t ==> !outcomes[j].success
  }

  /** Table t's failure flag after the first k outcomes, from flag failure0. */
  function FailedAfter(tables: seq<TableDecision>, outcomes: seq<MetadataOut>, t: TableDecision, k: nat, failure0: bool): bool
    requires k <= |tables| == |outcomes|
  {
    if k == 0 then failure0
    else FailedAfter(tables, outcomes, t, k - 1, failure0) || (tables[k - 1] == t && !outcomes[k - 1].success)
  }

  /** Table t's metadata after the first k outcomes, from metadata0. */
  function MetadataAfter(tables: seq<TableDecision>, outcomes: seq<MetadataOut>, t: TableDecision, k: nat,
                         metadata0: TableMetadata): TableMetadata
    requires k <= |tables| == |outcomes|
  {
    if k == 0 then metadata0
    else if tables[k - 1] == t && outcomes[k - 1].success then outcomes[k - 1].metadata
    else MetadataAfter(tables, outcomes, t, k - 1, metadata0)
  }

  /** The flag is set exactly when it was set before or some outcome for t failed. */
  lemma {:induction false} FailedAfterMeans(tables: seq<TableDecision>, outcomes: seq<MetadataOut>, t: TableDecision,
                                             k: nat, failure0: bool)
    requires k <= |tables| == |outcomes|
    ensures FailedAfter(tables, outcomes, t, k, failure0) ==
      (failure0 || exists j :: 0 <= j < k && tables[j] == t && !outcomes[j].success)
  {
    if k > 0 {
      FailedAfterMeans(tables, outcomes, t, k - 1, failure0);
      if tables[k - 1] == t && !outcomes[k - 1].success {
        assert 0 <= k - 1 < k && tables[k - 1] == t && !outcomes[k - 1].success;
      } else if exists j :: 0 <= j < k && tables[j] == t && !outcomes[j].success {
        var j :| 0 <= j < k && tables[j] == t && !outcomes[j].success;
        assert j < k - 1;
      }
    }
  }

  /** With no successful outcome for t, its metadata stays metadata0. */
  lemma {:induction false} MetadataAfterNoSuccess(tables: seq<TableDecision>, outcomes: seq<MetadataOut>, t: TableDecision,
                                                   k: nat, metadata0: TableMetadata)
    requires k <= |tables| == |outcomes| && NoSuccessFor(tables, outcomes, t, k)
    ensures MetadataAfter(tables, outcomes, t, k, metadata0) == metadata0
  {
    if k > 0 {
      assert NoSuccessFor(tables, outcomes, t, k - 1);
      MetadataAfterNoSuccess(tables, outcomes, t, k - 1, metadata0);
    }
  }

  /** The metadata of t is that of its last successful outcome. */
  lemma {:induction false} MetadataAfterLast(tables: seq<TableDecision>, outcomes: seq<MetadataOut>, t: TableDecision,
                                              k: nat, metadata0: TableMetadata, i: nat)
    requires k <= |tables| == |outcomes| && i < k && tables[i] == t && LastSuccessFor(tables, outcomes, i, k)
    ensures MetadataAfter(tables, outcomes, t, k, metadata0) == outcomes[i].metadata
  {
    if i < k - 1 {
      assert tables[k - 1] == tables[i] ==> !outcomes[k - 1].success;
      assert LastSuccessFor(tables, outcomes, i, k - 1);
      MetadataAfterLast(tables, outcomes, t, k - 1, metadata0, i);
    }
  }

  /** What the flag and the metadata of every table mean once all outcomes are read. */
  lemma AfterAll(tables: seq<TableDecision>, outcomes: seq<MetadataOut>)
    requires |tables| == |outcomes|
    ensures forall i, failure0 :: 0 <= i < |tables| ==>
      FailedAfter(tables, outcomes, tables[i], |tables|, failure0) ==
        (failure0 || exists j :: 0 <= j < |tables| && tables[j] == tables[i] && !outcomes[j].success)
    ensures forall i, metadata0 :: 0 <= i < |tables| && LastSuccessFor(tables, outcomes, i, |tables|) ==>
      MetadataAfter(tables, outcomes, tables[i], |tables|, metadata0) == outcomes[i].metadata
    ensures forall i, metadata0 :: 0 <= i < |tables| && NoSuccessFor(tables, outcomes, tables[i], |tables|) ==>
      MetadataAfter(tables, outcomes, tables[i], |tables|, metadata0) == metadata0
  {
    forall i, failure0 | 0 <= i < |tables| {
      FailedAfterMeans(tables, outcomes, tables[i], |tables|, failure0);
    }
    forall i, metadata0 | 0 <= i < |tables| && LastSuccessFor(tables, outcomes, i, |tables|) {
      MetadataAfterLast(tables, outcomes, tables[i], |tables|, metadata0, i);
    }
    forall i, metadata0 | 0 <= i < |tables| && NoSuccessFor(tables, outcomes, tables[i], |tables|) {
      MetadataAfterNoSuccess(tables, outcomes, tables[i], |tables|, metadata0);
    }
  }

  /** One outcome of retrieveSourceMetadata: a success stores the metadata it
      read, a failure marks the table failed. */
  method ApplyMetadata(td: TableDecision, out: MetadataOut)
    modifies td`failure, td`metadata
    ensures td.failure == (old(td.failure) || !out.success)
    ensures td.metadata == if out.success then out.metadata else old(td.metadata)
  {
    if out.success {
      td.metadata := out.metadata;
    } else {
      td.failure := true;
    }
  }

  /** retrieveSourceMetadata after the tasks ran: the outcomes are read in
      submission order; a successful one stores the metadata and keeps its
      table, an unsuccessful one marks its table failed. */
  method RetrieveSourceMetadata(tables: seq<TableDecision>, outcomes: seq<MetadataOut>)
    returns (kept: seq<TableDecision>)
    requires |outcomes| == |tables|
    modifies tables`failure, tables`metadata
    ensures kept == Succeeded(tables, outcomes, |tables|)
    ensures forall i :: 0 <= i < |tables| ==>
      tables[i].failure == (old(tables[i].failure) || exists j :: 0 <= j < |tables| && tables[j] == tables[i] && !outcomes[j].success)
    ensures forall i :: 0 <= i < |tables| && LastSuccessFor(tables, outcomes, i, |tables|) ==>
      tables[i].metadata == outcomes[i].metadata
    ensures forall i :: 0 <= i < |tables| && NoSuccessFor(tables, outcomes, tables[i], |tables|) ==>
      tables[i].metadata == old(tables[i].metadata)
  {
    kept := [];
    for k := 0 to |tables|
      invariant kept == Succeeded(tables, outcomes, k)
      invariant forall i :: 0 <= i < |tables| ==>
        tables[i].failure == FailedAfter(tables, outcomes, tables[i], k, old(tables[i].failure))
        && tables[i].metadata == MetadataAfter(tables, outcomes, tables[i], k, old(tables[i].metadata))
    {
      var td := tables[k];
      ApplyMetadata(td, outcomes[k]);
      if outcomes[k].success {
        kept := kept + [td];
      }
    }
    AfterAll(tables, outcomes);
  }

  // ---------------------------------------------------------------------------
  // createMissingTables

  /** keys lists each key of the map once: the iteration order of its values(). */
  ghost predicate KeyListing(keys: seq<string>, m: map<string, TargetTable>)
  {
    (forall key :: key in keys <==> key in m)
    && (forall i, j :: 0 <= i < j < |keys| ==> keys[i] != keys[j])
  }

  /** Every table that is not failed has a main target, and its blob targets
      are iterated in the order blobKeys gives. */
  ghost predicate Submittable(tables: seq<TableDecision>, blobKeys: seq<seq<string>>)
    reads tables
  {
    |blobKeys| == |tables|
    && forall i :: 0 <= i < |tables| && !tables[i].failure ==>
      tables[i].target != null && KeyListing(blobKeys[i], tables[i].blobTargets)
  }

  /** The aux tables of the first k keys, in key order. */
  function BlobList(m: map<string, TargetTable>, keys: seq<string>, k: nat): seq<TargetTable>
    requires k <= |keys| && forall key :: key in keys ==> key in m
  {
    if k == 0 then [] else BlobList(m, keys, k - 1) + [m[keys[k - 1]]]
  }

  /** The creations submitted for the first k tables: nothing for a failed
      table, otherwise each of its blob targets and then its main target. */
  function Submitted(tables: seq<TableDecision>, blobKeys: seq<seq<string>>, k: nat): seq<TargetTable>
    reads tables
    requires k <= |tables| && Submittable(tables, blobKeys)
  {
    if k == 0 then []
    else
      var td := tables[k - 1];
      Submitted(tables, blobKeys, k - 1)
        + (if td.failure then [] else BlobList(td.blobTargets, blobKeys[k - 1], |blobKeys[k - 1]|) + [td.target])
  }

  /** The number of creations the first k tables call for: one per blob
      target and one for the main target of every table not failed. */
  function Creations(tables: seq<TableDecision>, k: nat): nat
    reads tables
    requires k <= |tables|
  {
    if k == 0 then 0
    else Creations(tables, k - 1) + (if tables[k - 1].failure then 0 else |tables[k - 1].blobTargets| + 1)
  }

  lemma {:induction false} BlobListMembers(m: map<string, TargetTable>, keys: seq<string>, k: nat)
    requires k <= |keys| && forall key :: key in keys ==> key in m
    ensures |BlobList(m, keys, k)| == k
    ensures forall i :: 0 <= i < k ==> BlobList(m, keys, k)[i] == m[keys[i]]
  {
    if k > 0 {
      BlobListMembers(m, keys, k - 1);
    }
  }

  /** A list of distinct keys is as long as the set of its keys. */
  lemma {:induction false} DistinctKeysCount(keys: seq<string>)
    requires forall i, j :: 0 <= i < j < |keys| ==> keys[i] != keys[j]
    ensures |set key | key in keys| == |keys|
  {
    if keys != [] {
      var init := keys[..|keys| - 1];
      DistinctKeysCount(init);
      var s := set key | key in keys;
      var s0 := set key | key in init;
      assert s == s0 + {keys[|keys| - 1]};
      assert keys[|keys| - 1] !in s0;
    }
  }

  /** A key listing has one entry per entry of the map. */
  lemma KeyListingCount(keys: seq<string>, m: map<string, TargetTable>)
    requires KeyListing(keys, m)
    ensures |keys| == |m|
  {
    DistinctKeysCount(keys);
    assert (set key | key in keys) == m.Keys;
  }

  /** A failed table submits nothing; every other table submits one creation
      per blob target plus one for its main table. */
  lemma {:induction false} SubmittedShape(tables: seq<TableDecision>, blobKeys: seq<seq<string>>, k: nat)
    requires k <= |tables| && Submittable(tables, blobKeys)
    ensures |Submitted(tables, blobKeys, k)| == Creations(tables, k)
    ensures forall t :: t in Submitted(tables, blobKeys, k) ==>
      exists i :: 0 <= i < k && !tables[i].failure && (t == tables[i].target || t in tables[i].blobTargets.Values)
  {
    if k > 0 {
      SubmittedShape(tables, blobKeys, k - 1);
      var td := tables[k - 1];
      if !td.failure {
        var keys := blobKeys[k - 1];
        BlobListMembers(td.blobTargets, keys, |keys|);
        KeyListingCount(keys, td.blobTargets);
        var own := BlobList(td.blobTargets, keys, |keys|) + [td.target];
        forall t | t in own
          ensures t == td.target || t in td.blobTargets.Values
        {
          if t != td.target {
            var a :| 0 <= a < |keys| && own[a] == t;
            assert td.blobTargets[keys[a]] == t;
          }
        }
      }
    }
  }

  /** Every entry of the map is in the list of a key listing. */
  lemma BlobListComplete(m: map<string, TargetTable>, keys: seq<string>)
    requires KeyListing(keys, m)
    ensures forall key :: key in m ==> m[key] in BlobList(m, keys, |keys|)
  {
    BlobListMembers(m, keys, |keys|);
    forall key | key in m
      ensures m[key] in BlobList(m, keys, |keys|)
    {
      var a :| 0 <= a < |keys| && keys[a] == key;
      assert BlobList(m, keys, |keys|)[a] == m[key];
    }
  }

  /** A main target and every blob target of a table not failed is submitted. */
  lemma {:induction false} SubmittedComplete(tables: seq<TableDecision>, blobKeys: seq<seq<string>>, k: nat)
    requires k <= |tables| && Submittable(tables, blobKeys)
    ensures forall i :: 0 <= i < k && !tables[i].failure ==>
      tables[i].target in Submitted(tables, blobKeys, k)
      && forall key :: key in tables[i].blobTargets ==> tables[i].blobTargets[key] in Submitted(tables, blobKeys, k)
  {
    if k > 0 {
      SubmittedComplete(tables, blobKeys, k - 1);
      var prev := Submitted(tables, blobKeys, k - 1);
      var td := tables[k - 1];
      var own: seq<TargetTable> := if td.failure then [] else BlobList(td.blobTargets, blobKeys[k - 1], |blobKeys[k - 1]|) + [td.target];
      assert Submitted(tables, blobKeys, k) == prev + own;
      if !td.failure {
        BlobListComplete(td.blobTargets, blobKeys[k - 1]);
      }
    }
  }

  /** The submission loop of createMissingTables. */
  method SubmitCreations(tables: seq<TableDecision>, blobKeys: seq<seq<string>>) returns (submitted: seq<TargetTable>)
    requires Submittable(tables, blobKeys)
    ensures submitted == Submitted(tables, blobKeys, |tables|)
  {
    submitted := [];
    for i := 0 to |tables|
      invariant submitted == Submitted(tables, blobKeys, i)
    {
      var td := tables[i];
      if !td.failure {
        var keys := blobKeys[i];
        ghost var before := submitted;
        for k := 0 to |keys|
          invariant submitted == before + BlobList(td.blobTargets, keys, k)
        {
          submitted := submitted + [td.blobTargets[keys[k]]];
        }
        submitted := submitted + [td.target];
      }
    }
  }

  /** What a create-table task reports for the target it was given: success,
      and the description of the table when it existed already. */
  datatype CreateOut = CreateOut(success: bool, existing: Option<seq<TableColumn>>)

  /** The successes among the first k outcomes. */
  function Successes(flags: seq<bool>, k: nat): (n: nat)
    requires k <= |flags|
  {
    if k == 0 then 0 else Successes(flags, k - 1) + (if flags[k - 1] then 1 else 0)
  }

  /** No more successes than outcomes, and as many exactly when all succeeded. */
  lemma {:induction false} SuccessesBound(flags: seq<bool>, k: nat)
    requires k <= |flags|
    ensures Successes(flags, k) <= k
    ensures Successes(flags, k) == k <==> forall i :: 0 <= i < k ==> flags[i]
  {
    if k > 0 {
      SuccessesBound(flags, k - 1);
    }
  }

  function CreateFlags(created: seq<CreateOut>): (flags: seq<bool>)
    ensures |flags| == |created| && forall i :: 0 <= i < |created| ==> flags[i] == created[i].success
  {
    seq(|created|, i requires 0 <= i < |created| => created[i].success)
  }

  /** An outcome that makes the target adopt the existing structure. */
  predicate Adopts(c: CreateOut)
  {
    c.success && c.existing.Some?
  }

  /** The owning tables of the submitted targets. */
  function Owners(submitted: seq<TargetTable>): (owners: seq<TableDecision>)
    ensures |owners| == |submitted| && forall i :: 0 <= i < |submitted| ==> owners[i] == submitted[i].original
  {
    seq(|submitted|, i requires 0 <= i < |submitted| => submitted[i].original)
  }

  /** Outcome j is the last adopting outcome among the first k for its target. */
  predicate LastAdoption(submitted: seq<TargetTable>, created: seq<CreateOut>, j: nat, k: nat)
    requires k <= |submitted| == |created|
  {
    j < k && Adopts(created[j]) && forall l :: j < l < k && submitted[l] == submitted[j] ==> !Adopts(created[l])
  }

  /** No outcome among the first k adopts a structure for target t. */
  predicate NoAdoption(submitted: seq<TargetTable>, created: seq<CreateOut>, t: TargetTable, k: nat)
    requires k <= |submitted| == |created|
  {
    forall l :: 0 <= l < k && submitted[l] == t ==> !Adopts(created[l])
  }

  /** Table t's failure flag after the first k creation outcomes, from failure0. */
  function FailedAfterCreations(submitted: seq<TargetTable>, created: seq<CreateOut>, t: TableDecision, k: nat,
                                failure0: bool): bool
    requires k <= |submitted| == |created|
  {
    if k == 0 then failure0
    else FailedAfterCreations(submitted, created, t, k - 1, failure0) || (!created[k - 1].success && submitted[k - 1].original == t)
  }

  /** Target t's fields after the first k creation outcomes, from fields0. */
  function FieldsAfter(submitted: seq<TargetTable>, created: seq<CreateOut>, t: TargetTable, k: nat,
                       fields0: StructType, structOf: map<string, Type> -> StructType): StructType
    requires k <= |submitted| == |created|
  {
    if k == 0 then fields0
    else if submitted[k - 1] == t && Adopts(created[k - 1]) then
      structOf(Relaxed(created[k - 1].existing.value, |created[k - 1].existing.value|))
    else FieldsAfter(submitted, created, t, k - 1, fields0, structOf)
  }

  /** The flag is set exactly when it was set before or a creation for one of
      t's targets failed. */
  lemma {:induction false} FailedAfterCreationsMeans(submitted: seq<TargetTable>, created: seq<CreateOut>, t: TableDecision,
                                                      k: nat, failure0: bool)
    requires k <= |submitted| == |created|
    ensures FailedAfterCreations(submitted, created, t, k, failure0) ==
      (failure0 || exists j :: 0 <= j < k && !created[j].success && submitted[j].original == t)
  {
    if k > 0 {
      FailedAfterCreationsMeans(submitted, created, t, k - 1, failure0);
      if !created[k - 1].success && submitted[k - 1].original == t {
        assert 0 <= k - 1 < k && !created[k - 1].success && submitted[k - 1].original == t;
      } else if exists j :: 0 <= j < k && !created[j].success && submitted[j].original == t {
        var j :| 0 <= j < k && !created[j].success && submitted[j].original == t;
        assert j < k - 1;
      }
    }
  }

  /** A target with no adopting outcome keeps fields0. */
  lemma {:induction false} FieldsAfterNoAdoption(submitted: seq<TargetTable>, created: seq<CreateOut>, t: TargetTable,
                                                  k: nat, fields0: StructType, structOf: map<string, Type> -> StructType)
    requires k <= |submitted| == |created| && NoAdoption(submitted, created, t, k)
    ensures FieldsAfter(submitted, created, t, k, fields0, structOf) == fields0
  {
    if k > 0 {
      assert NoAdoption(submitted, created, t, k - 1);
      FieldsAfterNoAdoption(submitted, created, t, k - 1, fields0, structOf);
    }
  }

  /** A target takes the relaxed structure of its last adopting outcome. */
  lemma {:induction false} FieldsAfterLast(submitted: seq<TargetTable>, created: seq<CreateOut>, k: nat,
                                            fields0: StructType, structOf: map<string, Type> -> StructType, j: nat)
    requires k <= |submitted| == |created| && LastAdoption(submitted, created, j, k)
    ensures FieldsAfter(submitted, created, submitted[j], k, fields0, structOf)
      == structOf(Relaxed(created[j].existing.value, |created[j].existing.value|))
  {
    if j < k - 1 {
      assert submitted[k - 1] == submitted[j] ==> !Adopts(created[k - 1]);
      assert LastAdoption(submitted, created, j, k - 1);
      FieldsAfterLast(submitted, created, k - 1, fields0, structOf, j);
    }
  }

  /** What the flags and the fields mean once all creation outcomes are read. */
  lemma AfterAllCreations(tables: seq<TableDecision>, submitted: seq<TargetTable>, created: seq<CreateOut>,
                          structOf: map<string, Type> -> StructType)
    requires |submitted| == |created|
    ensures forall i, failure0 :: 0 <= i < |tables| ==>
      FailedAfterCreations(submitted, created, tables[i], |created|, failure0) ==
        (failure0 || exists j :: 0 <= j < |submitted| && !created[j].success && submitted[j].original == tables[i])
    ensures forall j, fields0 :: 0 <= j < |submitted| && LastAdoption(submitted, created, j, |submitted|) ==>
      FieldsAfter(submitted, created, submitted[j], |created|, fields0, structOf)
        == structOf(Relaxed(created[j].existing.value, |created[j].existing.value|))
    ensures forall j, fields0 :: 0 <= j < |submitted| && NoAdoption(submitted, created, submitted[j], |submitted|) ==>
      FieldsAfter(submitted, created, submitted[j], |created|, fields0, structOf) == fields0
  {
    forall i, failure0 | 0 <= i < |tables| {
      FailedAfterCreationsMeans(submitted, created, tables[i], |created|, failure0);
    }
    forall j, fields0 | 0 <= j < |submitted| && LastAdoption(submitted, created, j, |submitted|) {
      FieldsAfterLast(submitted, created, |created|, fields0, structOf, j);
    }
    forall j, fields0 | 0 <= j < |submitted| && NoAdoption(submitted, created, submitted[j], |submitted|) {
      FieldsAfterNoAdoption(submitted, created, submitted[j], |created|, fields0, structOf);
    }
  }

  /** One outcome of createMissingTables: a success is counted and may adopt
      the existing structure, a failure marks the owning table failed. */
  method ApplyCreation(target: TargetTable, r: CreateOut, structOf: map<string, Type> -> StructType)
    returns (succeeded: bool)
    modifies target`fields, target.original`failure
    ensures succeeded == r.success
    ensures target.original.failure == (old(target.original.failure) || !r.success)
    ensures Adopts(r) ==> target.fields == structOf(Relaxed(r.existing.value, |r.existing.value|))
    ensures !Adopts(r) ==> target.fields == old(target.fields)
  {
    succeeded := r.success;
    if r.success {
      if r.existing.Some? {
        AdjustTargetStructure(target, r.existing.value, structOf);
      }
    } else {
      target.original.failure := true;
    }
  }

  /** The result loop of createMissingTables: the outcomes in submission
      order; a success is counted and adopts an existing structure, a failure
      marks the owning table failed. */
  method ApplyCreations(tables: seq<TableDecision>, submitted: seq<TargetTable>, created: seq<CreateOut>,
                        structOf: map<string, Type> -> StructType)
    returns (successCount: nat)
    requires |created| == |submitted|
    modifies submitted`fields, Owners(submitted)`failure
    ensures successCount == Successes(CreateFlags(created), |created|)
    ensures forall i :: 0 <= i < |tables| ==>
      tables[i].failure == (old(tables[i].failure)
        || exists j :: 0 <= j < |submitted| && !created[j].success && submitted[j].original == tables[i])
    ensures forall j :: 0 <= j < |submitted| && LastAdoption(submitted, created, j, |submitted|) ==>
      submitted[j].fields == structOf(Relaxed(created[j].existing.value, |created[j].existing.value|))
    ensures forall j :: 0 <= j < |submitted| && (forall l :: 0 <= l < |submitted| && submitted[l] == submitted[j] ==> !Adopts(created[l])) ==>
      submitted[j].fields == old(submitted[j].fields)
  {
    ghost var flags := CreateFlags(created);
    successCount := 0;
    for k := 0 to |created|
      invariant successCount == Successes(flags, k)
      invariant forall i :: 0 <= i < |tables| ==>
        tables[i].failure == FailedAfterCreations(submitted, created, tables[i], k, old(tables[i].failure))
      invariant forall j :: 0 <= j < |submitted| ==>
        submitted[j].fields == FieldsAfter(submitted, created, submitted[j], k, old(submitted[j].fields), structOf)
    {
      var succeeded := ApplyCreation(submitted[k], created[k], structOf);
      if succeeded {
        successCount := successCount + 1;
      }
    }
    AfterAllCreations(tables, submitted, created, structOf);
  }

  /** createMissingTables: one creation task per target of every table not
      failed, then the outcomes folded back; returns the submissions and the
      number of successes. */
  method CreateMissingTables(tables: seq<TableDecision>, blobKeys: seq<seq<string>>, created: seq<CreateOut>,
                             structOf: map<string, Type> -> StructType)
    returns (submitted: seq<TargetTable>, successCount: nat)
    requires Submittable(tables, blobKeys)
    requires |created| == |Submitted(tables, blobKeys, |tables|)|
    modifies Submitted(tables, blobKeys, |tables|)`fields, Owners(Submitted(tables, blobKeys, |tables|))`failure
    ensures submitted == old(Submitted(tables, blobKeys, |tables|))
    ensures successCount == Successes(CreateFlags(created), |created|) && successCount <= |submitted|
    ensures forall i :: 0 <= i < |tables| ==>
      tables[i].failure == (old(tables[i].failure)
        || exists j :: 0 <= j < |submitted| && !created[j].success && submitted[j].original == tables[i])
    ensures forall j :: 0 <= j < |submitted| && LastAdoption(submitted, created, j, |submitted|) ==>
      submitted[j].fields == structOf(Relaxed(created[j].existing.value, |created[j].existing.value|))
    ensures forall j :: 0 <= j < |submitted| && (forall l :: 0 <= l < |submitted| && submitted[l] == submitted[j] ==> !Adopts(created[l])) ==>
      submitted[j].fields == old(submitted[j].fields)
  {
    ghost var before := Submitted(tables, blobKeys, |tables|);
    SubmittedShape(tables, blobKeys, |tables|);
    forall j | 0 <= j < |before|
      ensures allocated(before[j])
    {
      var t := before[j];
      assert t in before;
      var i :| 0 <= i < |tables| && !tables[i].failure && (t == tables[i].target || t in tables[i].blobTargets.Values);
      if t != tables[i].target {
        var key :| key in tables[i].blobTargets && tables[i].blobTargets[key] == t;
      }
    }
    submitted := SubmitCreations(tables, blobKeys);
    assert submitted == before;
    successCount := ApplyCreations(tables, submitted, created, structOf);
    SuccessesBound(CreateFlags(created), |created|);
  }

  // ---------------------------------------------------------------------------
  // loadTableData

  /** The tables among the first k that are not failed, in list order: those
      a load task is submitted for. */
  function Pending(tables: seq<TableDecision>, k: nat): seq<TableDecision>
    reads tables
    requires k <= |tables|
  {
    if k == 0 then []
    else Pending(tables, k - 1) + (if tables[k - 1].failure then [] else [tables[k - 1]])
  }

  /** Exactly the tables without the failure flag are submitted. */
  lemma {:induction false} PendingMembers(tables: seq<TableDecision>, k: nat)
    requires k <= |tables|
    ensures |Pending(tables, k)| <= k
    ensures forall t :: t in Pending(tables, k) <==> exists i :: 0 <= i < k && tables[i] == t && !tables[i].failure
  {
    if k > 0 {
      PendingMembers(tables, k - 1);
    }
  }

  /** loadTableData after the tasks ran: one load task per table not failed;
      nothing more when there is none; otherwise the outcomes in submission
      order, a failure marking its table failed. */
  method LoadTableData(tables: seq<TableDecision>, loaded: seq<bool>) returns (submitted: seq<TableDecision>, successCount: nat)
    requires |loaded| == |Pending(tables, |tables|)|
    modifies tables`failure
    ensures submitted == old(Pending(tables, |tables|))
    ensures successCount == Successes(loaded, |loaded|)
    ensures forall i :: 0 <= i < |tables| ==>
      tables[i].failure == (old(tables[i].failure) || exists j :: 0 <= j < |submitted| && !loaded[j] && submitted[j] == tables[i])
  {
    submitted := [];
    for i := 0 to |tables|
      invariant submitted == Pending(tables, i)
    {
      if !tables[i].failure {
        submitted := submitted + [tables[i]];
      }
    }
    if submitted == [] {
      return submitted, 0;
    }
    PendingMembers(tables, |tables|);
    forall j | 0 <= j < |submitted|
      ensures submitted[j] in tables
    {
      assert submitted[j] in Pending(tables, |tables|);
    }
    successCount := 0;
    for k := 0 to |submitted|
      invariant successCount == Successes(loaded, k)
      invariant forall i :: 0 <= i < |tables| ==>
        tables[i].failure == (old(tables[i].failure) || exists j :: 0 <= j < k && !loaded[j] && submitted[j] == tables[i])
    {
      if loaded[k] {
        successCount := successCount + 1;
      } else {
        submitted[k].failure := true;
      }
    }
  }

  // ---------------------------------------------------------------------------
  // WorkerFactory

  const WORKER_PREFIX: string := "YdbImporter-worker-"

  /** The name of the thread made when the counter reads c. */
  function ThreadName(c: Int32): string
  {
    WORKER_PREFIX + IntToString(c)
  }

  /** The counter after n threads: n wrapped to a Java int. */
  lemma WrapStep(n: nat)
    ensures Wrap32(Wrap32(n) + 1) == Wrap32(n + 1)
  {
    var m := n % 0x1_0000_0000;
    assert Wrap32(n) == m || Wrap32(n) == m - 0x1_0000_0000;
    if m == 0xFFFF_FFFF {
      assert (n + 1) % 0x1_0000_0000 == 0;
    } else {
      assert (n + 1) % 0x1_0000_0000 == m + 1;
    }
  }

  /** Below 2^32 the wrap is the identity up to 2^31 and subtracts 2^32 above. */
  lemma Wrap32Small(i: nat)
    requires i < 0x1_0000_0000
    ensures Wrap32(i) == if i < 0x8000_0000 then i else i - 0x1_0000_0000
  {
    assert i % 0x1_0000_0000 == i;
  }

  /** The first 2^32 threads have pairwise distinct names. */
  lemma ThreadNamesDistinct(i: nat, j: nat)
    requires i < j < 0x1_0000_0000
    ensures ThreadName(Wrap32(i)) != ThreadName(Wrap32(j))
  {
    Wrap32Small(i);
    Wrap32Small(j);
    var x, y := Wrap32(i), Wrap32(j);
    IntToStringInjective(x, y);
    assert ThreadName(x)[|WORKER_PREFIX|..] == IntToString(x);
    assert ThreadName(y)[|WORKER_PREFIX|..] == IntToString(y);
  }

  /** The name of the next thread is not among those of the threads before
      it, while fewer than 2^32 threads have been made. */
  lemma NextNameFresh(names: seq<string>)
    requires |names| < 0x1_0000_0000
    requires forall i :: 0 <= i < |names| ==> names[i] == ThreadName(Wrap32(i))
    ensures ThreadName(Wrap32(|names|)) !in names
  {
    forall i | 0 <= i < |names|
      ensures names[i] != ThreadName(Wrap32(|names|))
    {
      ThreadNamesDistinct(i, |names|);
    }
  }

  /** One more thread: the counter of n threads moves to that of n + 1, the
      names keep following the counter, and the new name is fresh while
      fewer than 2^32 threads have been made. */
  lemma NamingStep(counter: Int32, names: seq<string>)
    requires counter == Wrap32(|names|)
    requires forall i :: 0 <= i < |names| ==> names[i] == ThreadName(Wrap32(i))
    ensures Wrap32(counter + 1) == Wrap32(|names| + 1)
    ensures forall i :: 0 <= i < |names| + 1 ==> (names + [ThreadName(counter)])[i] == ThreadName(Wrap32(i))
    ensures |names| < 0x1_0000_0000 ==> ThreadName(counter) !in names
  {
    WrapStep(|names|);
    if |names| < 0x1_0000_0000 {
      NextNameFresh(names);
    }
  }

  /** The thread factory of the worker pool: names each thread after a counter
      that grows by one per thread. */
  class WorkerFactory {
    var counter: Int32
    /** the threads made so far, and their names */
    ghost var made: nat
    ghost var names: seq<string>

    ghost predicate Valid()
      reads this
    {
      counter == Wrap32(made) && |names| == made
      && forall i :: 0 <= i < made ==> names[i] == ThreadName(Wrap32(i))
    }

    constructor ()
      ensures Valid() && made == 0 && counter == 0
    {
      counter := 0;
      made := 0;
      names := [];
    }

    /** newThread: a thread named after the counter, then the counter moves on. */
    method NewThread() returns (name: string)
      requires Valid()
      modifies this
      ensures Valid() && made == old(made) + 1 && names == old(names) + [name]
      ensures name == ThreadName(Wrap32(old(made)))
      ensures old(made) < 0x1_0000_0000 ==> name !in old(names)
    {
      name := WORKER_PREFIX + IntToString(counter);
      NamingStep(counter, names);
      counter := Wrap32(counter + 1);
      made := made + 1;
      names := names + [name];
    }
  }
}
