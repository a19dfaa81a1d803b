/** LoadDataTask: copying one source table into its target table. It
    binds target members to result-set columns, converts each row into a
    member array, hands blob values to a blob saver, sends the converted rows
    in batches of at most maxBatchRows, and fills the synthetic key from the
    non-blob column texts. */
module LoadDataTask {
  import opened Wrappers
  import opened YdbTypes
  import opened Jdbc
  import opened ValueConverter
  import opened Tables
  import opened Batching

  /** The settings a load task reads, and the library functions it relies on. */
  datatype Settings = Settings(
    maxBatchRows: int,              // target maxBatchRows
    maxBlobRows: int,               // target maxBlobRows, handed to the blob saver
    database: string,               // database path of the target connection
    decimalIssue: bool,             // DECIMAL_ISSUE1
    convert: (Field, ConvMode) -> Result<Conversion, Failure>,  // convertValue, inherited from ValueConverter
    synthKeyField: string,          // TargetTable.SYNTH_KEY_FIELD
    isBlob: int -> bool,            // ColumnInfo.isBlob on a java.sql.Types code
    keyOf: string -> seq<byte>,     // SHA-256 of the UTF-8 bytes, URL-safe Base64 without padding, ISO-8859-1 bytes
    binaryStream: Field -> Option<seq<byte>>,  // ResultSet.getBinaryStream on the field's column
    blobStream: Field -> Option<seq<byte>>,    // ResultSet.getBlob(..).getBinaryStream()
    blobIdOf: nat -> Int64)         // the id the blob saver hands out for the k-th blob it saves

  /** The load task's convertValue is ValueConverter's, with its decimal setting. */
  ghost predicate InheritsConvertValue(s: Settings)
  {
    forall f, m {:trigger ConvertValue(f, m, s.decimalIssue)} :: s.convert(f, m) == ConvertValue(f, m, s.decimalIssue)
  }

  /** What the load task hands to the upsert executor, in order. */
  datatype UpsertEvent =
    | Upsert(path: string, rows: seq<seq<Value>>)   // ydbOp.start on one batch
    | BlobFlush                                      // blobSaver.flush
    | Finish                                         // ydbOp.finish

  /** One blob handed to the blob saver: its auxiliary table and its bytes. */
  datatype BlobRecord = BlobRecord(path: Option<string>, data: seq<byte>)

  /** The result of one load task. */
  datatype Out = Out(tab: TableDecision, success: bool, rowCount: int)

  /** The blob saver, seen from the load task: the blobs handed to it, in order. */
  class BlobSaver {
    const maxBlobRows: int
    const idOf: nat -> Int64
    var saved: seq<BlobRecord>

    constructor (maxBlobRows: int, idOf: nat -> Int64)
      ensures this.maxBlobRows == maxBlobRows && this.idOf == idOf && saved == []
    {
      this.maxBlobRows := maxBlobRows;
      this.idOf := idOf;
      saved := [];
    }

    /** saveBlob: records the blob and returns its id. */
    method SaveBlob(data: seq<byte>, path: Option<string>) returns (id: Int64)
      modifies this
      ensures saved == old(saved) + [BlobRecord(path, data)]
      ensures id == idOf(|old(saved)|)
    {
      id := idOf(|saved|);
      saved := saved + [BlobRecord(path, data)];
    }
  }

  // ---------------------------------------------------------------------------
  // buildMainIndex

  /** sourceColumns: each result-set column name mapped to its 1-based
      position; for a repeated name the last position wins. */
  function SourceColumns(columns: seq<ColumnMeta>): (m: map<string, int>)
    ensures forall name :: name in m ==> 1 <= m[name] <= |columns| && columns[m[name] - 1].name == name
  {
    if columns == [] then map[]
    else SourceColumns(columns[..|columns| - 1])[columns[|columns| - 1].name := |columns|]
  }

  /** The first loop of buildMainIndex: the name-to-position map of the result set. */
  method MapSourceColumns(columns: seq<ColumnMeta>) returns (sourceColumns: map<string, int>)
    ensures sourceColumns == SourceColumns(columns)
  {
    sourceColumns := map[];
    var i := 1;
    while i <= |columns|
      invariant 1 <= i <= |columns| + 1
      invariant sourceColumns == SourceColumns(columns[..i - 1])
    {
      assert columns[..i][..i - 1] == columns[..i - 1];
      sourceColumns := sourceColumns[columns[i - 1].name := i];
      i := i + 1;
    }
    assert columns[..|columns|] == columns;
  }

  /** Every column name is in the map, and it maps to the last column of that name. */
  lemma {:induction false} SourceColumnsLastWins(columns: seq<ColumnMeta>)
    ensures forall name :: name in SourceColumns(columns) <==> exists i :: 0 <= i < |columns| && columns[i].name == name
    ensures forall name :: name in SourceColumns(columns) ==>
      forall j :: SourceColumns(columns)[name] <= j < |columns| ==> columns[j].name != name
  {
    if columns != [] {
      var prefix := columns[..|columns| - 1];
      SourceColumnsLastWins(prefix);
      assert forall i :: 0 <= i < |prefix| ==> prefix[i] == columns[i];
    }
  }

  /** The binding buildMainIndex records for target member j: None when the
      member is skipped, an error when chooseMode rejects it. */
  function IndexEntry(s: Settings, fields: StructType, j: nat, columns: seq<ColumnMeta>,
                      md: TableMetadata, blobTargets: map<string, TargetTable>): (r: Result<Option<ConvInfo>, Failure>)
    requires j < |fields|
    ensures r.Ok? && r.value.Some? ==> r.value.value.targetIndex == j && 1 <= r.value.value.sourceIndex <= |columns|
  {
    var name := fields[j].name;
    var sourceColumns := SourceColumns(columns);
    if name == s.synthKeyField then Ok(None)
    else
      match FindColumn(md, name)
      case None => Ok(None)
      case Some(ci) =>
        if name !in sourceColumns then Ok(None)
        else if s.isBlob(ci.sqlType) then
          if name !in blobTargets then Ok(None)
          else
            var mode := if ci.blobAsObject then ConvMode.BlobObject else ConvMode.BlobStream;
            Ok(Some(ConvInfo(sourceColumns[name], j, mode, Some(s.database + "/" + blobTargets[name].fullName))))
        else
          match ModeFor(Innermost(fields[j].ty), columns[sourceColumns[name] - 1].sqlType)
          case Err(e) => Err(e)
          case Ok(cm) => Ok(Some(ConvInfo(sourceColumns[name], j, cm, None)))
  }

  /** The entry of every target member, in member order. */
  function Entries(s: Settings, fields: StructType, columns: seq<ColumnMeta>,
                   md: TableMetadata, blobTargets: map<string, TargetTable>): seq<Result<Option<ConvInfo>, Failure>>
  {
    seq(|fields|, j requires 0 <= j < |fields| => IndexEntry(s, fields, j, columns, md, blobTargets))
  }

  /** buildMainIndex's pass over the first k entries: their bindings in member
      order, or the first failure. */
  function Collect(entries: seq<Result<Option<ConvInfo>, Failure>>, k: nat): Result<seq<ConvInfo>, Failure>
    requires k <= |entries|
  {
    if k == 0 then Ok([])
    else
      match Collect(entries, k - 1)
      case Err(e) => Err(e)
      case Ok(index) =>
        match entries[k - 1]
        case Err(e) => Err(e)
        case Ok(None) => Ok(index)
        case Ok(Some(e)) => Ok(index + [e])
  }

  /** The index buildMainIndex builds for the target members. */
  function MainIndex(s: Settings, fields: StructType, columns: seq<ColumnMeta>,
                     md: TableMetadata, blobTargets: map<string, TargetTable>): Result<seq<ConvInfo>, Failure>
  {
    Collect(Entries(s, fields, columns, md, blobTargets), |fields|)
  }

  /** The rules of buildMainIndex for one member: a member is skipped exactly
      when it is the synthetic key, is not in the metadata, is not in the result
      set, or is a blob without an aux table; a binding points at the last
      result-set column of the member's name; a blob column is read as a Blob
      object or a binary stream and written to its aux table; any other column
      takes the mode chosen for its type and has no aux table; the only failure
      is chooseMode's. */
  lemma IndexEntryRules(s: Settings, fields: StructType, j: nat, columns: seq<ColumnMeta>,
                        md: TableMetadata, blobTargets: map<string, TargetTable>)
    requires j < |fields|
    ensures var r := IndexEntry(s, fields, j, columns, md, blobTargets);
      var name := fields[j].name;
      (r == Ok(None) <==>
        (name == s.synthKeyField
         || FindColumn(md, name).None?
         || (forall i :: 0 <= i < |columns| ==> columns[i].name != name)
         || (s.isBlob(FindColumn(md, name).value.sqlType) && name !in blobTargets)))
      && (r.Ok? && r.value.Some? ==>
            columns[r.value.value.sourceIndex - 1].name == name
            && (forall i :: r.value.value.sourceIndex <= i < |columns| ==> columns[i].name != name))
      && (r.Ok? && r.value.Some? && s.isBlob(FindColumn(md, name).value.sqlType) ==>
            r.value.value.mode == (if FindColumn(md, name).value.blobAsObject then ConvMode.BlobObject else ConvMode.BlobStream)
            && r.value.value.blobPath == Some(s.database + "/" + blobTargets[name].fullName))
      && (r.Ok? && r.value.Some? && !s.isBlob(FindColumn(md, name).value.sqlType) ==>
            Ok(r.value.value.mode) == ModeFor(Innermost(fields[j].ty), columns[r.value.value.sourceIndex - 1].sqlType)
            && r.value.value.blobPath.None?)
      && (r.Err? ==>
            FindColumn(md, name).Some? && !s.isBlob(FindColumn(md, name).value.sqlType)
            && r.error == (if Innermost(fields[j].ty).Primitive? then UnsupportedType(Innermost(fields[j].ty).prim)
                           else UnsupportedKind(Innermost(fields[j].ty))))
  {
    SourceColumnsLastWins(columns);
  }

  /** Every binding's target and source position lies inside the member array and the row. */
  predicate IndexFits(index: seq<ConvInfo>, memberCount: int, columnCount: int)
  {
    forall i :: 0 <= i < |index| ==> 0 <= index[i].targetIndex < memberCount && 1 <= index[i].sourceIndex <= columnCount
  }

  predicate TargetsIncreasing(index: seq<ConvInfo>)
  {
    forall a, b :: 0 <= a < b < |index| ==> index[a].targetIndex < index[b].targetIndex
  }

  /** The first failure ends the pass. */
  lemma {:induction false} CollectErrStays(entries: seq<Result<Option<ConvInfo>, Failure>>, j: nat, k: nat)
    requires j <= k <= |entries| && Collect(entries, j).Err?
    ensures Collect(entries, k) == Collect(entries, j)
    decreases k
  {
    if k > j {
      CollectErrStays(entries, j, k - 1);
    }
  }

  lemma EntryAt(s: Settings, fields: StructType, columns: seq<ColumnMeta>,
                md: TableMetadata, blobTargets: map<string, TargetTable>, j: nat)
    requires j < |fields|
    ensures |Entries(s, fields, columns, md, blobTargets)| == |fields|
    ensures Entries(s, fields, columns, md, blobTargets)[j] == IndexEntry(s, fields, j, columns, md, blobTargets)
  {
  }

  /** One more entry: a failure ends the pass with it, a skipped member leaves
      the index as it is, a binding is appended. */
  lemma CollectNext(entries: seq<Result<Option<ConvInfo>, Failure>>, k: nat, e: Result<Option<ConvInfo>, Failure>)
    requires k < |entries| && entries[k] == e && Collect(entries, k).Ok?
    ensures e.Err? ==> Collect(entries, |entries|) == Err(e.error)
    ensures e.Ok? && e.value.None? ==> Collect(entries, k + 1) == Collect(entries, k)
    ensures e.Ok? && e.value.Some? ==> Collect(entries, k + 1) == Ok(Collect(entries, k).value + [e.value.value])
  {
    if e.Err? {
      CollectErrStays(entries, k + 1, |entries|);
    }
  }

  /** Entry j, when it binds, binds member j to a column of the result set. */
  predicate Numbered(entries: seq<Result<Option<ConvInfo>, Failure>>, columnCount: int)
  {
    forall j :: 0 <= j < |entries| && entries[j].Ok? && entries[j].value.Some? ==>
      entries[j].value.value.targetIndex == j && 1 <= entries[j].value.value.sourceIndex <= columnCount
  }

  lemma {:induction false} CollectShape(entries: seq<Result<Option<ConvInfo>, Failure>>, k: nat, columnCount: int)
    requires k <= |entries| && Numbered(entries, columnCount)
    ensures var r := Collect(entries, k);
      r.Ok? ==>
        TargetsIncreasing(r.value) && IndexFits(r.value, k, columnCount)
        && (forall a :: 0 <= a < |r.value| ==> r.value[a].targetIndex < k && entries[r.value[a].targetIndex] == Ok(Some(r.value[a])))
        && (forall j :: (0 <= j < k && entries[j].Ok? && entries[j].value.Some?) ==> entries[j].value.value in r.value)
    ensures Collect(entries, k).Err? <==> exists j :: 0 <= j < k && entries[j].Err?
  {
    if k > 0 {
      CollectShape(entries, k - 1, columnCount);
      var prev := Collect(entries, k - 1);
      if prev.Ok? && entries[k - 1].Ok? && entries[k - 1].value.Some? {
        var index := prev.value + [entries[k - 1].value.value];
        assert forall a :: 0 <= a < |prev.value| ==> index[a] == prev.value[a];
        assert forall e :: e in index ==> e in prev.value || e == entries[k - 1].value.value;
      }
    }
  }

  /** The index holds one binding per member that is not skipped, in increasing
      member order, with source positions inside the result set; it fails
      exactly when some member's mode cannot be chosen. */
  lemma MainIndexShape(s: Settings, fields: StructType, columns: seq<ColumnMeta>,
                       md: TableMetadata, blobTargets: map<string, TargetTable>)
    ensures var r := MainIndex(s, fields, columns, md, blobTargets);
      r.Ok? ==>
        TargetsIncreasing(r.value) && IndexFits(r.value, |fields|, |columns|)
        && (forall a :: 0 <= a < |r.value| ==>
              IndexEntry(s, fields, r.value[a].targetIndex, columns, md, blobTargets) == Ok(Some(r.value[a])))
        && (forall j :: (0 <= j < |fields| && IndexEntry(s, fields, j, columns, md, blobTargets).Ok?
                         && IndexEntry(s, fields, j, columns, md, blobTargets).value.Some?) ==>
              IndexEntry(s, fields, j, columns, md, blobTargets).value.value in r.value)
    ensures MainIndex(s, fields, columns, md, blobTargets).Err? <==>
      exists j :: 0 <= j < |fields| && IndexEntry(s, fields, j, columns, md, blobTargets).Err?
  {
    var entries := Entries(s, fields, columns, md, blobTargets);
    assert forall j :: 0 <= j < |fields| ==> entries[j] == IndexEntry(s, fields, j, columns, md, blobTargets);
    assert Numbered(entries, |columns|);
    CollectShape(entries, |fields|, |columns|);
  }

  // ---------------------------------------------------------------------------
  // convert

  /** openStream: getBinaryStream for BLOB_STREAM, the Blob object's stream
      for the other blob mode; None where the getter throws. */
  function OpenStream(s: Settings, f: Field, mode: ConvMode): Option<seq<byte>>
  {
    if mode == ConvMode.BlobStream then s.binaryStream(f) else s.blobStream(f)
  }

  /** A bound field's value, and the blobs it hands to the blob saver: none,
      or the one its stream holds. */
  datatype Bound = Bound(value: Value, blobs: seq<BlobRecord>)

  /** convertValue as the load task runs it: a blob mode saves the stream and
      yields the blob's id; nextBlob is the number of blobs saved before. */
  function ConvertField(s: Settings, f: Field, ci: ConvInfo, nextBlob: nat): (r: Result<Bound, Failure>)
  {
    match s.convert(f, ci.mode)
    case Err(e) => Err(e)
    case Ok(Converted(v)) => Ok(Bound(v, []))
    case Ok(ToBlob) =>
      match OpenStream(s, f, ci.mode)
      case None => Err(BlobStreamFailed)
      case Some(data) => Ok(Bound(Int64Value(s.blobIdOf(nextBlob)), [BlobRecord(ci.blobPath, data)]))
  }

  /** A binding yields a blob exactly for a present field in a blob mode whose
      stream opens; the blob's id is the next one the saver hands out; any
      other success is convertValue's value; a failure is convertValue's or
      the stream's. */
  lemma ConvertFieldRules(s: Settings, f: Field, ci: ConvInfo, nextBlob: nat)
    requires InheritsConvertValue(s)
    ensures var r := ConvertField(s, f, ci, nextBlob);
      (r.Ok? && r.value.blobs != [] <==> f.Present? && ci.mode in {ConvMode.BlobStream, ConvMode.BlobObject} && OpenStream(s, f, ci.mode).Some?)
      && (r.Ok? && r.value.blobs != [] ==> r.value.value == Int64Value(s.blobIdOf(nextBlob)) && r.value.blobs == [BlobRecord(ci.blobPath, OpenStream(s, f, ci.mode).value)])
      && (r.Ok? && r.value.blobs == [] ==> ConvertValue(f, ci.mode, s.decimalIssue) == Ok(Converted(r.value.value)))
      && (r.Err? ==> (ConvertValue(f, ci.mode, s.decimalIssue).Err? && r.error == ConvertValue(f, ci.mode, s.decimalIssue).error) || (f.Present? && ci.mode in {ConvMode.BlobStream, ConvMode.BlobObject} && r.error == BlobStreamFailed))
  {
  }

  /** A row being converted: the member array, the blobs saved for it so far,
      and the failure that stopped it, if any. */
  datatype RowState = RowState(members: seq<Value>, blobs: seq<BlobRecord>, failure: Option<Failure>)

  /** The member array after the first k bindings of the index; a failing
      binding is reported with its target member's name and stops the row. */
  function Fill(s: Settings, fields: StructType, index: seq<ConvInfo>, row: seq<Field>, k: nat, blobsBefore: nat): (r: RowState)
    requires k <= |index| && IndexFits(index, |fields|, |row|)
    ensures |r.members| == |fields|
  {
    if k == 0 then RowState(seq(|fields|, _ => VoidValue), [], None)
    else
      var st := Fill(s, fields, index, row, k - 1, blobsBefore);
      if st.failure.Some? then st
      else
        var ci := index[k - 1];
        match ConvertField(s, row[ci.sourceIndex - 1], ci, blobsBefore + |st.blobs|)
        case Err(e) => st.(failure := Some(ColumnFailed(fields[ci.targetIndex].name, e)))
        case Ok(b) => RowState(st.members[ci.targetIndex := b.value], st.blobs + b.blobs, None)
  }

  /** One more binding: its conversion's value goes into its member and its
      blob, if any, is appended; a failed conversion stops the row. */
  lemma FillStep(s: Settings, fields: StructType, index: seq<ConvInfo>, row: seq<Field>, k: nat, blobsBefore: nat)
    requires k < |index| && IndexFits(index, |fields|, |row|)
    requires Fill(s, fields, index, row, k, blobsBefore).failure.None?
    ensures var st := Fill(s, fields, index, row, k, blobsBefore);
      var ci := index[k];
      var c := ConvertField(s, row[ci.sourceIndex - 1], ci, blobsBefore + |st.blobs|);
      (c.Err? ==> Fill(s, fields, index, row, k + 1, blobsBefore) == st.(failure := Some(ColumnFailed(fields[ci.targetIndex].name, c.error))))
      && (c.Ok? ==> Fill(s, fields, index, row, k + 1, blobsBefore)
                     == RowState(st.members[ci.targetIndex := c.value.value], st.blobs + c.value.blobs, None))
  {
  }

  /** A failed binding stops the row: later bindings change nothing. */
  lemma {:induction false} FillStops(s: Settings, fields: StructType, index: seq<ConvInfo>, row: seq<Field>,
                                      j: nat, k: nat, blobsBefore: nat)
    requires j <= k <= |index| && IndexFits(index, |fields|, |row|)
    requires Fill(s, fields, index, row, j, blobsBefore).failure.Some?
    ensures Fill(s, fields, index, row, k, blobsBefore) == Fill(s, fields, index, row, j, blobsBefore)
    decreases k
  {
    if k > j {
      FillStops(s, fields, index, row, j, k - 1, blobsBefore);
    }
  }

  /** The member array and the saved blobs agree with the first k bindings. */
  predicate Filled(s: Settings, fields: StructType, index: seq<ConvInfo>, row: seq<Field>, k: nat,
                   before: seq<BlobRecord>, members: seq<Value>, saved: seq<BlobRecord>)
    requires k <= |index| && IndexFits(index, |fields|, |row|)
  {
    var st := Fill(s, fields, index, row, k, |before|);
    st.failure.None? && members == st.members && saved == before + st.blobs
  }

  /** One binding converted as convertValue says moves the member array and the
      saved blobs from Fill's state for k bindings to its state for k + 1. */
  lemma FillAdvance(s: Settings, fields: StructType, index: seq<ConvInfo>, row: seq<Field>, k: nat,
                    before: seq<BlobRecord>, members0: seq<Value>, saved0: seq<BlobRecord>,
                    members1: seq<Value>, saved1: seq<BlobRecord>, failure: Option<Failure>)
    requires k < |index| && IndexFits(index, |fields|, |row|)
    requires Filled(s, fields, index, row, k, before, members0, saved0)
    requires var ci := index[k];
      var c := ConvertField(s, row[ci.sourceIndex - 1], ci, |saved0|);
      (c.Err? ==> failure == Some(ColumnFailed(fields[ci.targetIndex].name, c.error)) && saved1 == saved0)
      && (c.Ok? ==> failure.None? && members1 == members0[ci.targetIndex := c.value.value]
                    && saved1 == saved0 + c.value.blobs)
    ensures failure.None? ==> Filled(s, fields, index, row, k + 1, before, members1, saved1)
    ensures failure.Some? ==>
      var st := Fill(s, fields, index, row, k + 1, |before|);
      failure == st.failure && saved1 == before + st.blobs
  {
    var st := Fill(s, fields, index, row, k, |before|);
    FillStep(s, fields, index, row, k, |before|);
    var ci := index[k];
    var c := ConvertField(s, row[ci.sourceIndex - 1], ci, |before| + |st.blobs|);
    if c.Ok? {
      AppendAssoc(before, st.blobs, c.value.blobs);
    }
  }

  /** convert for one row: the bindings, then the synthetic key. */
  function ConvertRow(s: Settings, fields: StructType, index: seq<ConvInfo>, synthKeyPos: Option<int>,
                      columns: seq<ColumnMeta>, row: seq<Field>, blobsBefore: nat): (r: RowState)
    requires IndexFits(index, |fields|, |columns|) && |row| == |columns|
    ensures |r.members| == |fields|
  {
    var st := Fill(s, fields, index, row, |index|, blobsBefore);
    if st.failure.Some? then st
    else
      match synthKeyPos
      case None => st
      case Some(pos) =>
        if 0 <= pos < |fields| then st.(members := st.members[pos := BytesValue(s.keyOf(Accumulator(columns, row, s.isBlob)))])
        else st.(failure := Some(IndexOutOfBounds))
  }

  /** What a binding leaves in its member: the value convertValue gave, or for
      a blob an Int64; which id it is, BlobHeld says. */
  predicate HoldsConversion(s: Settings, v: Value, f: Field, ci: ConvInfo)
  {
    match s.convert(f, ci.mode)
    case Ok(Converted(w)) => v == w
    case Ok(ToBlob) => v.Int64Value?
    case Err(_) => false
  }

  /** Members no binding targets keep the Void value. */
  lemma {:induction false} FillLeavesUnboundVoid(s: Settings, fields: StructType, index: seq<ConvInfo>, row: seq<Field>,
                                                  k: nat, blobsBefore: nat, p: int)
    requires k <= |index| && IndexFits(index, |fields|, |row|) && 0 <= p < |fields|
    requires forall a :: 0 <= a < k ==> index[a].targetIndex != p
    ensures Fill(s, fields, index, row, k, blobsBefore).members[p] == VoidValue
  {
    if k > 0 {
      FillLeavesUnboundVoid(s, fields, index, row, k - 1, blobsBefore, p);
    }
  }

  /** The members bound by the first k bindings hold their conversions. */
  predicate HoldAll(s: Settings, index: seq<ConvInfo>, row: seq<Field>, k: nat, members: seq<Value>)
    requires k <= |index| && IndexFits(index, |members|, |row|)
  {
    forall a {:trigger HoldsConversion(s, members[index[a].targetIndex], row[index[a].sourceIndex - 1], index[a])} ::
      0 <= a < k ==> HoldsConversion(s, members[index[a].targetIndex], row[index[a].sourceIndex - 1], index[a])
  }

  /** Storing binding k - 1's conversion keeps the earlier members, whose targets are smaller. */
  lemma HoldAllStore(s: Settings, index: seq<ConvInfo>, row: seq<Field>, k: nat, members: seq<Value>, v: Value)
    requires 0 < k <= |index| && IndexFits(index, |members|, |row|) && TargetsIncreasing(index)
    requires HoldAll(s, index, row, k - 1, members)
    requires HoldsConversion(s, v, row[index[k - 1].sourceIndex - 1], index[k - 1])
    ensures HoldAll(s, index, row, k, members[index[k - 1].targetIndex := v])
  {
    var updated := members[index[k - 1].targetIndex := v];
    forall a | 0 <= a < k
      ensures HoldsConversion(s, updated[index[a].targetIndex], row[index[a].sourceIndex - 1], index[a])
    {
      if a < k - 1 {
        assert index[a].targetIndex < index[k - 1].targetIndex;
      }
    }
  }

  /** A binding that converts leaves in its member what HoldsConversion expects. */
  lemma ConvertFieldHolds(s: Settings, f: Field, ci: ConvInfo, nextBlob: nat)
    ensures var c := ConvertField(s, f, ci, nextBlob);
      c.Ok? ==> HoldsConversion(s, c.value.value, f, ci)
  {
  }

  /** With distinct increasing targets, every bound member holds its binding's conversion. */
  lemma {:induction false} FillHoldsConversions(s: Settings, fields: StructType, index: seq<ConvInfo>, row: seq<Field>,
                                                 k: nat, blobsBefore: nat)
    requires k <= |index| && IndexFits(index, |fields|, |row|) && TargetsIncreasing(index)
    ensures var st := Fill(s, fields, index, row, k, blobsBefore);
      st.failure.None? ==> HoldAll(s, index, row, k, st.members)
  {
    if k > 0 {
      FillHoldsConversions(s, fields, index, row, k - 1, blobsBefore);
      var st := Fill(s, fields, index, row, k - 1, blobsBefore);
      var ci := index[k - 1];
      if st.failure.None? {
        FillStep(s, fields, index, row, k - 1, blobsBefore);
        var c := ConvertField(s, row[ci.sourceIndex - 1], ci, blobsBefore + |st.blobs|);
        if c.Ok? {
          ConvertFieldHolds(s, row[ci.sourceIndex - 1], ci, blobsBefore + |st.blobs|);
          HoldAllStore(s, index, row, k, st.members, c.value.value);
        }
      }
    }
  }

  /** v is the id the saver handed out for a blob among blobs holding rec;
      blobs are those saved for the row, from position blobsBefore on. */
  predicate SavedAs(s: Settings, v: Value, blobsBefore: nat, blobs: seq<BlobRecord>, rec: BlobRecord)
  {
    exists p :: 0 <= p < |blobs| && v == Int64Value(s.blobIdOf(blobsBefore + p)) && blobs[p] == rec
  }

  /** A blob binding's member holds the id of the blob saved from its stream. */
  predicate BlobHeld(s: Settings, v: Value, f: Field, ci: ConvInfo, blobsBefore: nat, blobs: seq<BlobRecord>)
  {
    s.convert(f, ci.mode) == Ok(ToBlob) ==>
      OpenStream(s, f, ci.mode).Some? && SavedAs(s, v, blobsBefore, blobs, BlobRecord(ci.blobPath, OpenStream(s, f, ci.mode).value))
  }

  /** A blob binding that converts stores the next blob's id in its member
      and appends the blob its stream holds. */
  lemma FillBlobStep(s: Settings, fields: StructType, index: seq<ConvInfo>, row: seq<Field>, a: nat, blobsBefore: nat)
    requires a < |index| && IndexFits(index, |fields|, |row|)
    requires Fill(s, fields, index, row, a + 1, blobsBefore).failure.None?
    requires s.convert(row[index[a].sourceIndex - 1], index[a].mode) == Ok(ToBlob)
    ensures OpenStream(s, row[index[a].sourceIndex - 1], index[a].mode).Some?
    ensures Fill(s, fields, index, row, a + 1, blobsBefore).members[index[a].targetIndex]
         == Int64Value(s.blobIdOf(blobsBefore + |Fill(s, fields, index, row, a, blobsBefore).blobs|))
    ensures Fill(s, fields, index, row, a + 1, blobsBefore).blobs
         == Fill(s, fields, index, row, a, blobsBefore).blobs
            + [BlobRecord(index[a].blobPath, OpenStream(s, row[index[a].sourceIndex - 1], index[a].mode).value)]
  {
    FillStep(s, fields, index, row, a, blobsBefore);
  }

  /** In a row that converts, a blob binding's member holds the id of the blob
      its stream was saved as. */
  lemma {:induction false} FillBlobHeld(s: Settings, fields: StructType, index: seq<ConvInfo>, row: seq<Field>,
                                         a: nat, k: nat, blobsBefore: nat)
    requires a < k <= |index| && IndexFits(index, |fields|, |row|) && TargetsIncreasing(index)
    requires Fill(s, fields, index, row, k, blobsBefore).failure.None?
    requires s.convert(row[index[a].sourceIndex - 1], index[a].mode) == Ok(ToBlob)
    ensures var st := Fill(s, fields, index, row, k, blobsBefore);
      BlobHeld(s, st.members[index[a].targetIndex], row[index[a].sourceIndex - 1], index[a], blobsBefore, st.blobs)
    decreases k
  {
    if k == a + 1 {
      FillBlobFirst(s, fields, index, row, a, blobsBefore);
    } else {
      var ta := index[a].targetIndex;
      assert ta < index[k - 1].targetIndex;
      FillOther(s, fields, index, row, k, blobsBefore, ta);
      FillBlobHeld(s, fields, index, row, a, k - 1, blobsBefore);
      BlobHeldExtend(s, Fill(s, fields, index, row, k - 1, blobsBefore).members[ta], row[index[a].sourceIndex - 1], index[a],
                     blobsBefore, Fill(s, fields, index, row, k - 1, blobsBefore).blobs, Fill(s, fields, index, row, k, blobsBefore).blobs);
    }
  }

  /** Right after a blob binding, its member holds the id of the blob just saved. */
  lemma FillBlobFirst(s: Settings, fields: StructType, index: seq<ConvInfo>, row: seq<Field>, a: nat, blobsBefore: nat)
    requires a < |index| && IndexFits(index, |fields|, |row|)
    requires Fill(s, fields, index, row, a + 1, blobsBefore).failure.None?
    requires s.convert(row[index[a].sourceIndex - 1], index[a].mode) == Ok(ToBlob)
    ensures var st := Fill(s, fields, index, row, a + 1, blobsBefore);
      BlobHeld(s, st.members[index[a].targetIndex], row[index[a].sourceIndex - 1], index[a], blobsBefore, st.blobs)
  {
    FillBlobStep(s, fields, index, row, a, blobsBefore);
    var next := Fill(s, fields, index, row, a + 1, blobsBefore);
    BlobKept(s, row[index[a].sourceIndex - 1], index[a], blobsBefore, Fill(s, fields, index, row, a, blobsBefore).blobs, next, next);
  }

  /** A binding on another member leaves this member alone and only appends blobs. */
  lemma FillOther(s: Settings, fields: StructType, index: seq<ConvInfo>, row: seq<Field>, k: nat, blobsBefore: nat, ta: int)
    requires 0 < k <= |index| && IndexFits(index, |fields|, |row|)
    requires 0 <= ta < |fields| && ta != index[k - 1].targetIndex
    requires Fill(s, fields, index, row, k, blobsBefore).failure.None?
    ensures Fill(s, fields, index, row, k - 1, blobsBefore).failure.None?
    ensures Fill(s, fields, index, row, k, blobsBefore).members[ta] == Fill(s, fields, index, row, k - 1, blobsBefore).members[ta]
    ensures Fill(s, fields, index, row, k - 1, blobsBefore).blobs <= Fill(s, fields, index, row, k, blobsBefore).blobs
  {
    FillStep(s, fields, index, row, k - 1, blobsBefore);
  }

  /** Saving more blobs keeps the one a member's id names. */
  lemma BlobHeldExtend(s: Settings, v: Value, f: Field, ci: ConvInfo, blobsBefore: nat,
                       blobs: seq<BlobRecord>, more: seq<BlobRecord>)
    requires BlobHeld(s, v, f, ci, blobsBefore, blobs) && blobs <= more
    ensures BlobHeld(s, v, f, ci, blobsBefore, more)
  {
    if s.convert(f, ci.mode) == Ok(ToBlob) {
      var rec := BlobRecord(ci.blobPath, OpenStream(s, f, ci.mode).value);
      var p :| 0 <= p < |blobs| && v == Int64Value(s.blobIdOf(blobsBefore + p)) && blobs[p] == rec;
      assert more[p] == blobs[p];
    }
  }

  /** The blob a binding appends holds its stream, and its member the blob's id. */
  lemma BlobKept(s: Settings, f: Field, ci: ConvInfo, blobsBefore: nat, before: seq<BlobRecord>, next: RowState, final: RowState)
    requires s.convert(f, ci.mode) == Ok(ToBlob) && OpenStream(s, f, ci.mode).Some?
    requires 0 <= ci.targetIndex < |next.members| && ci.targetIndex < |final.members|
    requires next.members[ci.targetIndex] == Int64Value(s.blobIdOf(blobsBefore + |before|))
    requires next.blobs == before + [BlobRecord(ci.blobPath, OpenStream(s, f, ci.mode).value)]
    requires next.blobs <= final.blobs
    requires final.members[ci.targetIndex] == next.members[ci.targetIndex]
    ensures BlobHeld(s, final.members[ci.targetIndex], f, ci, blobsBefore, final.blobs)
  {
    assert |before| < |next.blobs| <= |final.blobs|;
    assert final.blobs[|before|] == next.blobs[|before|];
  }

  /** Binding a is the first to fail and its failure is st's: no earlier
      binding failed, st carries a's own error under a's member name, and no
      blob was saved after the ones before a. */
  predicate FailsAt(s: Settings, fields: StructType, index: seq<ConvInfo>, row: seq<Field>, a: nat, blobsBefore: nat,
                    st: RowState)
    requires a < |index| && IndexFits(index, |fields|, |row|)
  {
    var before := Fill(s, fields, index, row, a, blobsBefore);
    var ci := index[a];
    var c := ConvertField(s, row[ci.sourceIndex - 1], ci, blobsBefore + |before.blobs|);
    before.failure.None? && c.Err?
    && st.failure == Some(ColumnFailed(fields[ci.targetIndex].name, c.error))
    && st.blobs == before.blobs
  }

  /** A failure is the first failing binding's own error, named by its member. */
  lemma {:induction false} FillFailureNamesColumn(s: Settings, fields: StructType, index: seq<ConvInfo>, row: seq<Field>,
                                                   k: nat, blobsBefore: nat)
    requires k <= |index| && IndexFits(index, |fields|, |row|)
    ensures var st := Fill(s, fields, index, row, k, blobsBefore);
      st.failure.Some? ==> exists a :: 0 <= a < k && FailsAt(s, fields, index, row, a, blobsBefore, st)
  {
    if k > 0 {
      FillFailureNamesColumn(s, fields, index, row, k - 1, blobsBefore);
      var st := Fill(s, fields, index, row, k - 1, blobsBefore);
      if st.failure.Some? {
        var a :| 0 <= a < k - 1 && FailsAt(s, fields, index, row, a, blobsBefore, st);
        assert Fill(s, fields, index, row, k, blobsBefore) == st;
        assert FailsAt(s, fields, index, row, a, blobsBefore, Fill(s, fields, index, row, k, blobsBefore));
      } else if Fill(s, fields, index, row, k, blobsBefore).failure.Some? {
        FillStep(s, fields, index, row, k - 1, blobsBefore);
        assert FailsAt(s, fields, index, row, k - 1, blobsBefore, Fill(s, fields, index, row, k, blobsBefore));
      }
    }
  }

  /** convert: a converted row has one value per member; members that no
      binding targets, other than the synthetic key, stay Void; every bound
      member holds its binding's conversion, a blob member the id of the blob
      saved for it; the synthetic key member holds the key of the row. */
  lemma ConvertRowShape(s: Settings, fields: StructType, index: seq<ConvInfo>, synthKeyPos: Option<int>,
                        columns: seq<ColumnMeta>, row: seq<Field>, blobsBefore: nat)
    requires IndexFits(index, |fields|, |columns|) && |row| == |columns| && TargetsIncreasing(index)
    ensures var r := ConvertRow(s, fields, index, synthKeyPos, columns, row, blobsBefore);
      r.failure.None? ==>
        |r.members| == |fields|
        && (forall p :: (0 <= p < |fields| && Some(p) != synthKeyPos
                         && forall a :: 0 <= a < |index| ==> index[a].targetIndex != p) ==> r.members[p] == VoidValue)
        && (forall a :: 0 <= a < |index| && Some(index[a].targetIndex) != synthKeyPos ==>
              HoldsConversion(s, r.members[index[a].targetIndex], row[index[a].sourceIndex - 1], index[a])
              && BlobHeld(s, r.members[index[a].targetIndex], row[index[a].sourceIndex - 1], index[a], blobsBefore, r.blobs))
        && (synthKeyPos.Some? ==> r.members[synthKeyPos.value] == BytesValue(s.keyOf(Accumulator(columns, row, s.isBlob))))
  {
    FillHoldsConversions(s, fields, index, row, |index|, blobsBefore);
    if Fill(s, fields, index, row, |index|, blobsBefore).failure.None? {
      forall a | 0 <= a < |index|
        ensures var st := Fill(s, fields, index, row, |index|, blobsBefore);
          BlobHeld(s, st.members[index[a].targetIndex], row[index[a].sourceIndex - 1], index[a], blobsBefore, st.blobs)
      {
        if s.convert(row[index[a].sourceIndex - 1], index[a].mode) == Ok(ToBlob) {
          FillBlobHeld(s, fields, index, row, a, |index|, blobsBefore);
        }
      }
    }
    forall p | 0 <= p < |fields| && (forall a :: 0 <= a < |index| ==> index[a].targetIndex != p)
      ensures Fill(s, fields, index, row, |index|, blobsBefore).members[p] == VoidValue
    {
      FillLeavesUnboundVoid(s, fields, index, row, |index|, blobsBefore, p);
    }
  }

  /** convert fails only on its first failing binding, with that binding's own
      error under its member's name, or on a synthetic key position outside
      the member array. */
  lemma ConvertRowFailure(s: Settings, fields: StructType, index: seq<ConvInfo>, synthKeyPos: Option<int>,
                          columns: seq<ColumnMeta>, row: seq<Field>, blobsBefore: nat)
    requires IndexFits(index, |fields|, |columns|) && |row| == |columns|
    ensures var r := ConvertRow(s, fields, index, synthKeyPos, columns, row, blobsBefore);
      r.failure.Some? ==>
        (r.failure.value == IndexOutOfBounds && synthKeyPos.Some? && !(0 <= synthKeyPos.value < |fields|)
         && Fill(s, fields, index, row, |index|, blobsBefore).failure.None?)
        || (exists a :: 0 <= a < |index| && FailsAt(s, fields, index, row, a, blobsBefore, r))
  {
    FillFailureNamesColumn(s, fields, index, row, |index|, blobsBefore);
  }

  // ---------------------------------------------------------------------------
  // calcSynthKey

  /** The character that ends each value in the synthetic-key accumulator. */
  const SEPARATOR: char := '\U{0002}'

  /** getString: the text of a field, where a null contributes nothing. */
  function FieldText(f: Field): string
  {
    if f.SqlNull? then "" else f.text
  }

  /** The accumulator over the first k columns: each non-blob column's text
      followed by the separator, in result-set order. */
  function AccumulatorUpTo(columns: seq<ColumnMeta>, row: seq<Field>, isBlob: int -> bool, k: nat): string
    requires k <= |columns| && |row| == |columns|
  {
    if k == 0 then ""
    else
      AccumulatorUpTo(columns, row, isBlob, k - 1)
      + (if isBlob(columns[k - 1].sqlType) then "" else FieldText(row[k - 1]) + [SEPARATOR])
  }

  function Accumulator(columns: seq<ColumnMeta>, row: seq<Field>, isBlob: int -> bool): string
    requires |row| == |columns|
  {
    AccumulatorUpTo(columns, row, isBlob, |columns|)
  }

  /** Two rows whose non-blob columns have the same texts have the same
      accumulator: blob values do not count, and null counts as "". */
  lemma {:induction false} AccumulatorReadsTexts(columns: seq<ColumnMeta>, row1: seq<Field>, row2: seq<Field>,
                                                  isBlob: int -> bool, k: nat)
    requires |row1| == |columns| && |row2| == |columns| && k <= |columns|
    requires forall i :: 0 <= i < k && !isBlob(columns[i].sqlType) ==> FieldText(row1[i]) == FieldText(row2[i])
    ensures AccumulatorUpTo(columns, row1, isBlob, k) == AccumulatorUpTo(columns, row2, isBlob, k)
  {
    if k > 0 {
      AccumulatorReadsTexts(columns, row1, row2, isBlob, k - 1);
    }
  }

  /** A string that is empty or ends with the separator. */
  predicate Delimited(a: string)
  {
    a == [] || a[|a| - 1] == SEPARATOR
  }

  /** Splitting off the last separator-free value of a delimited prefix is unique. */
  lemma SplitLast(a1: string, t1: string, a2: string, t2: string)
    requires Delimited(a1) && Delimited(a2)
    requires SEPARATOR !in t1 && SEPARATOR !in t2
    requires a1 + t1 == a2 + t2
    ensures a1 == a2 && t1 == t2
  {
    var w := a1 + t1;
    assert forall i :: |a1| <= i < |w| ==> w[i] == t1[i - |a1|];
    assert forall i :: |a2| <= i < |w| ==> w[i] == t2[i - |a2|];
    assert a2 != [] ==> w[|a2| - 1] == SEPARATOR;
    assert a1 != [] ==> w[|a1| - 1] == SEPARATOR;
    assert |a1| == |a2|;
    assert a1 == w[..|a1|] && a2 == w[..|a2|];
  }

  lemma {:induction false} AccumulatorDelimited(columns: seq<ColumnMeta>, row: seq<Field>, isBlob: int -> bool, k: nat)
    requires k <= |columns| && |row| == |columns|
    ensures Delimited(AccumulatorUpTo(columns, row, isBlob, k))
  {
    if k > 0 {
      AccumulatorDelimited(columns, row, isBlob, k - 1);
    }
  }

  /** When no text contains the separator, the accumulator determines every
      non-blob column's text: rows that differ in one such text get different
      accumulators. */
  lemma {:induction false} AccumulatorInjective(columns: seq<ColumnMeta>, row1: seq<Field>, row2: seq<Field>,
                                                 isBlob: int -> bool, k: nat)
    requires |row1| == |columns| && |row2| == |columns| && k <= |columns|
    requires forall i :: 0 <= i < k ==> SEPARATOR !in FieldText(row1[i]) && SEPARATOR !in FieldText(row2[i])
    requires AccumulatorUpTo(columns, row1, isBlob, k) == AccumulatorUpTo(columns, row2, isBlob, k)
    ensures forall i :: 0 <= i < k && !isBlob(columns[i].sqlType) ==> FieldText(row1[i]) == FieldText(row2[i])
  {
    if k > 0 {
      var a1 := AccumulatorUpTo(columns, row1, isBlob, k - 1);
      var a2 := AccumulatorUpTo(columns, row2, isBlob, k - 1);
      if !isBlob(columns[k - 1].sqlType) {
        var t1 := FieldText(row1[k - 1]);
        var t2 := FieldText(row2[k - 1]);
        AccumulatorDelimited(columns, row1, isBlob, k - 1);
        AccumulatorDelimited(columns, row2, isBlob, k - 1);
        assert AccumulatorUpTo(columns, row1, isBlob, k) == a1 + (t1 + [SEPARATOR]);
        assert AccumulatorUpTo(columns, row2, isBlob, k) == a2 + (t2 + [SEPARATOR]);
        assert a1 + (t1 + [SEPARATOR]) == (a1 + t1) + [SEPARATOR];
        assert a2 + (t2 + [SEPARATOR]) == (a2 + t2) + [SEPARATOR];
        assert a1 + t1 == ((a1 + t1) + [SEPARATOR])[..|a1 + t1|];
        assert a2 + t2 == ((a2 + t2) + [SEPARATOR])[..|a2 + t2|];
        SplitLast(a1, t1, a2, t2);
      } else {
        assert AccumulatorUpTo(columns, row1, isBlob, k) == a1 + "";
        assert AccumulatorUpTo(columns, row2, isBlob, k) == a2 + "";
        assert a1 + "" == a1 && a2 + "" == a2;
      }
      AccumulatorInjective(columns, row1, row2, isBlob, k - 1);
    }
  }

  /** A present field carrying only its text. */
  function TextField(text: string): Field
  {
    Present(text, None, None, None, None, None, None, None, None, None)
  }

  /** Without the separator-free premise the accumulator is not injective:
      ("a" + U+0002, "") and ("a", U+0002) give the same synthetic key. */
  lemma SeparatorInValueCollides(isBlob: int -> bool, keyOf: string -> seq<byte>)
    requires !isBlob(VARCHAR)
    ensures var columns := [ColumnMeta("x", VARCHAR), ColumnMeta("y", VARCHAR)];
      var row1 := [TextField("a" + [SEPARATOR]), TextField("")];
      var row2 := [TextField("a"), TextField([SEPARATOR])];
      FieldText(row1[0]) != FieldText(row2[0])
      && keyOf(Accumulator(columns, row1, isBlob)) == keyOf(Accumulator(columns, row2, isBlob))
  {
    var columns := [ColumnMeta("x", VARCHAR), ColumnMeta("y", VARCHAR)];
    var row1 := [TextField("a" + [SEPARATOR]), TextField("")];
    var row2 := [TextField("a"), TextField([SEPARATOR])];
    assert AccumulatorUpTo(columns, row1, isBlob, 1) == "a" + [SEPARATOR] + [SEPARATOR];
    assert AccumulatorUpTo(columns, row2, isBlob, 1) == "a" + [SEPARATOR];
    assert Accumulator(columns, row1, isBlob) == "a" + [SEPARATOR, SEPARATOR, SEPARATOR];
    assert Accumulator(columns, row2, isBlob) == "a" + [SEPARATOR, SEPARATOR, SEPARATOR];
  }

  // ---------------------------------------------------------------------------
  // copyData

  /** All rows converted in cursor order, with the blobs they saved, stopping
      at the first row that fails. */
  datatype RowsState = RowsState(converted: seq<seq<Value>>, blobs: seq<BlobRecord>, failure: Option<Failure>)

  predicate RowsFit(rows: seq<seq<Field>>, columnCount: int)
  {
    forall i :: 0 <= i < |rows| ==> |rows[i]| == columnCount
  }

  /** The first n rows converted in cursor order, stopping at the first row that fails. */
  function ConvertRows(s: Settings, fields: StructType, index: seq<ConvInfo>, synthKeyPos: Option<int>,
                       columns: seq<ColumnMeta>, rows: seq<seq<Field>>, n: nat, blobsBefore: nat): (r: RowsState)
    requires IndexFits(index, |fields|, |columns|) && RowsFit(rows, |columns|) && n <= |rows|
    ensures r.failure.None? ==> |r.converted| == n
    ensures forall j :: 0 <= j < |r.converted| ==> |r.converted[j]| == |fields|
  {
    if n == 0 then RowsState([], [], None)
    else
      var prev := ConvertRows(s, fields, index, synthKeyPos, columns, rows, n - 1, blobsBefore);
      if prev.failure.Some? then prev
      else
        var st := ConvertRow(s, fields, index, synthKeyPos, columns, rows[n - 1], blobsBefore + |prev.blobs|);
        if st.failure.Some? then RowsState(prev.converted, prev.blobs + st.blobs, st.failure)
        else RowsState(prev.converted + [st.members], prev.blobs + st.blobs, None)
  }

  /** The upserts of a sequence of batches, in order. */
  function Upserts(path: string, batches: seq<seq<seq<Value>>>): seq<UpsertEvent>
  {
    if batches == [] then []
    else Upserts(path, batches[..|batches| - 1]) + [Upsert(path, batches[|batches| - 1])]
  }

  /** The events of a load that converted every row: the in-loop batches, the
      blob flush when a saver exists, the remainder if non-empty, then finish. */
  function Schedule(path: string, converted: seq<seq<Value>>, batchSize: nat, withSaver: bool): seq<UpsertEvent>
    requires batchSize >= 1
  {
    var b := Batch(converted, batchSize);
    Upserts(path, b.full)
    + (if withSaver then [BlobFlush] else [])
    + (if b.rest != [] then [Upsert(path, b.rest)] else [])
    + [Finish]
  }

  /** The batch size in effect: ArrayList(0) behaves as a batch of one. */
  function BatchSize(maxBatchRows: nat): (m: nat)
    ensures m >= 1 && (maxBatchRows >= 1 ==> m == maxBatchRows)
  {
    if maxBatchRows == 0 then 1 else maxBatchRows
  }

  /** The rows the load task has handed to the upsert executor. */
  function SubmittedRows(log: seq<UpsertEvent>): nat
  {
    if log == [] then 0
    else SubmittedRows(log[..|log| - 1]) + (if log[|log| - 1].Upsert? then |log[|log| - 1].rows| else 0)
  }

  lemma {:induction false} SubmittedRowsAppend(a: seq<UpsertEvent>, b: seq<UpsertEvent>)
    ensures SubmittedRows(a + b) == SubmittedRows(a) + SubmittedRows(b)
    decreases |b|
  {
    if b == [] {
      assert a + b == a;
    } else {
      assert (a + b)[..|a + b| - 1] == a + b[..|b| - 1];
      assert (a + b)[|a + b| - 1] == b[|b| - 1];
      SubmittedRowsAppend(a, b[..|b| - 1]);
    }
  }

  lemma {:induction false} SubmittedRowsUpserts(path: string, batches: seq<seq<seq<Value>>>)
    ensures SubmittedRows(Upserts(path, batches)) == |Flatten(batches)|
    decreases |batches|
  {
    if batches != [] {
      var last := batches[|batches| - 1];
      SubmittedRowsUpserts(path, batches[..|batches| - 1]);
      SubmittedRowsAppend(Upserts(path, batches[..|batches| - 1]), [Upsert(path, last)]);
      assert SubmittedRows([Upsert(path, last)]) == |last|;
    }
  }

  lemma UpsertsAppend(path: string, batches: seq<seq<seq<Value>>>, batch: seq<seq<Value>>)
    ensures Upserts(path, batches + [batch]) == Upserts(path, batches) + [Upsert(path, batch)]
  {
    assert (batches + [batch])[..|batches|] == batches;
  }

  /** The rows of a schedule's events: the full batches and the remainder. */
  lemma SubmittedRowsEvents(path: string, full: seq<seq<seq<Value>>>, rest: seq<seq<Value>>, withSaver: bool)
    ensures SubmittedRows(Upserts(path, full)
                          + (if withSaver then [BlobFlush] else [])
                          + (if rest != [] then [Upsert(path, rest)] else [])
                          + [Finish]) == |Flatten(full)| + |rest|
  {
    SubmittedRowsUpserts(path, full);
    var flush: seq<UpsertEvent> := if withSaver then [BlobFlush] else [];
    var tail: seq<UpsertEvent> := if rest != [] then [Upsert(path, rest)] else [];
    assert SubmittedRows(flush) == 0;
    assert SubmittedRows(tail) == |rest|;
    assert SubmittedRows([Finish]) == 0;
    SubmittedRowsAppend(Upserts(path, full), flush);
    SubmittedRowsAppend(Upserts(path, full) + flush, tail);
    SubmittedRowsAppend(Upserts(path, full) + flush + tail, [Finish]);
  }

  /** A completed load hands every converted row to the executor exactly once. */
  lemma ScheduleSubmitsEveryRow(path: string, converted: seq<seq<Value>>, batchSize: nat, withSaver: bool)
    requires batchSize >= 1
    ensures SubmittedRows(Schedule(path, converted, batchSize, withSaver)) == |converted|
  {
    var b := Batch(converted, batchSize);
    BatchShape(converted, batchSize);
    SubmittedRowsEvents(path, b.full, b.rest, withSaver);
  }

  /** Once a row fails, converting more rows changes nothing. */
  lemma {:induction false} ConvertRowsStops(s: Settings, fields: StructType, index: seq<ConvInfo>, synthKeyPos: Option<int>,
                                             columns: seq<ColumnMeta>, rows: seq<seq<Field>>, j: nat, k: nat, blobsBefore: nat)
    requires IndexFits(index, |fields|, |columns|) && RowsFit(rows, |columns|) && j <= k <= |rows|
    requires ConvertRows(s, fields, index, synthKeyPos, columns, rows, j, blobsBefore).failure.Some?
    ensures ConvertRows(s, fields, index, synthKeyPos, columns, rows, k, blobsBefore)
         == ConvertRows(s, fields, index, synthKeyPos, columns, rows, j, blobsBefore)
    decreases k
  {
    if k > j {
      ConvertRowsStops(s, fields, index, synthKeyPos, columns, rows, j, k - 1, blobsBefore);
    }
  }

  /** The conversions and saved blobs agree with ConvertRows for the first i rows, none failed. */
  predicate RowsCopied(s: Settings, fields: StructType, index: seq<ConvInfo>, synthKeyPos: Option<int>,
                       columns: seq<ColumnMeta>, rows: seq<seq<Field>>, i: nat,
                       before: seq<BlobRecord>, converted: seq<seq<Value>>, saved: seq<BlobRecord>)
    requires IndexFits(index, |fields|, |columns|) && RowsFit(rows, |columns|) && i <= |rows|
  {
    var want := ConvertRows(s, fields, index, synthKeyPos, columns, rows, i, |before|);
    want.failure.None? && want.converted == converted && saved == before + want.blobs
  }

  /** One row converted as ConvertRow says moves the copy from the first i rows
      to the first i + 1, or ends it with ConvertRows' failure for all rows. */
  lemma RowsAdvance(s: Settings, fields: StructType, index: seq<ConvInfo>, synthKeyPos: Option<int>,
                    columns: seq<ColumnMeta>, rows: seq<seq<Field>>, i: nat,
                    before: seq<BlobRecord>, converted: seq<seq<Value>>, saved0: seq<BlobRecord>,
                    saved1: seq<BlobRecord>, row: Result<seq<Value>, Failure>)
    requires IndexFits(index, |fields|, |columns|) && RowsFit(rows, |columns|) && i < |rows|
    requires RowsCopied(s, fields, index, synthKeyPos, columns, rows, i, before, converted, saved0)
    requires var st := ConvertRow(s, fields, index, synthKeyPos, columns, rows[i], |saved0|);
      saved1 == saved0 + st.blobs
      && row == (if st.failure.Some? then Err(st.failure.value) else Ok(st.members))
    ensures row.Ok? ==> RowsCopied(s, fields, index, synthKeyPos, columns, rows, i + 1, before, converted + [row.value], saved1)
    ensures row.Err? ==>
      var want := ConvertRows(s, fields, index, synthKeyPos, columns, rows, |rows|, |before|);
      want.failure == Some(row.error) && want.converted == converted && saved1 == before + want.blobs
  {
    var prev := ConvertRows(s, fields, index, synthKeyPos, columns, rows, i, |before|);
    var st := ConvertRow(s, fields, index, synthKeyPos, columns, rows[i], |before| + |prev.blobs|);
    AppendAssoc(before, prev.blobs, st.blobs);
    if row.Err? {
      ConvertRowsStops(s, fields, index, synthKeyPos, columns, rows, i + 1, |rows|, |before|);
    }
  }

  /** The events sent and the pending batch agree with Batch for the rows converted so far. */
  predicate Batched(path: string, log0: seq<UpsertEvent>, converted: seq<seq<Value>>, size: nat,
                    log: seq<UpsertEvent>, batch: seq<seq<Value>>)
    requires size >= 1
  {
    var b := Batch(converted, size);
    log == log0 + Upserts(path, b.full) && batch == b.rest
  }

  /** Adding a row to the pending batch, and sending it once it holds
      maxBatchRows rows, keeps the events in step with Batch. */
  lemma BatchAdvance(path: string, log0: seq<UpsertEvent>, converted: seq<seq<Value>>, maxBatchRows: nat,
                     log: seq<UpsertEvent>, batch: seq<seq<Value>>, x: seq<Value>)
    requires Batched(path, log0, converted, BatchSize(maxBatchRows), log, batch)
    ensures var b := batch + [x];
      if |b| >= maxBatchRows then Batched(path, log0, converted + [x], BatchSize(maxBatchRows), log + [Upsert(path, b)], [])
      else Batched(path, log0, converted + [x], BatchSize(maxBatchRows), log, b)
  {
    var size := BatchSize(maxBatchRows);
    BatchStep(converted, x, size);
    var full := Batch(converted, size).full;
    UpsertsAppend(path, full, batch + [x]);
    AppendAssoc(log0, Upserts(path, full), [Upsert(path, batch + [x])]);
  }

  lemma AppendAssoc<T>(a: seq<T>, b: seq<T>, c: seq<T>)
    ensures (a + b) + c == a + (b + c)
  {
  }

  lemma AppendAssoc4<T>(a: seq<T>, b: seq<T>, c: seq<T>, d: seq<T>, e: seq<T>)
    ensures a + b + c + d + e == a + (b + c + d + e)
  {
    AppendAssoc(a, b, c);
    AppendAssoc(a, b + c, d);
    AppendAssoc(a, b + c + d, e);
  }

  // ---------------------------------------------------------------------------
  // The load task

  class LoadDataTask {
    const tab: TableDecision
    const target: TargetTable
    const settings: Settings
    const mainTablePath: string
    /** bindings of result-set columns to target members */
    var mainIndex: seq<ConvInfo>
    /** created on the first blob */
    var blobSaver: BlobSaver?
    /** what the load task has handed to the upsert executor */
    var log: seq<UpsertEvent>

    /** The task's table keeps its target, and its convertValue is ValueConverter's. */
    ghost predicate Valid()
      reads this, tab
    {
      Linked() && InheritsConvertValue(settings)
    }

    /** The heap part of Valid: the table's target, and a saver made from the settings. */
    ghost predicate Linked()
      reads this, tab
    {
      tab.target == target
      && (blobSaver != null ==> blobSaver.maxBlobRows == settings.maxBlobRows && blobSaver.idOf == settings.blobIdOf)
    }

    /** The blobs handed to the saver so far. */
    function SavedBlobs(): seq<BlobRecord>
      reads this`blobSaver, blobSaver
    {
      if blobSaver == null then [] else blobSaver.saved
    }

    constructor (tab: TableDecision, settings: Settings)
      requires tab.target != null && InheritsConvertValue(settings)
      ensures this.tab == tab && target == tab.target && this.settings == settings
      ensures mainTablePath == settings.database + "/" + tab.target.fullName
      ensures mainIndex == [] && blobSaver == null && log == []
      ensures Valid()
    {
      this.tab := tab;
      this.target := tab.target;
      this.settings := settings;
      this.mainTablePath := settings.database + "/" + tab.target.fullName;
      mainIndex := [];
      blobSaver := null;
      log := [];
    }

    /** The index the current metadata and aux tables give for these members and columns. */
    function IndexFor(fields: StructType, columns: seq<ColumnMeta>): Result<seq<ConvInfo>, Failure>
      reads tab
    {
      MainIndex(settings, fields, columns, tab.metadata, tab.blobTargets)
    }

    /** One pass of buildMainIndex's member loop: the binding of member ixTarget,
        none when it is skipped, or chooseMode's error. */
    method IndexMember(fields: StructType, columns: seq<ColumnMeta>, sourceColumns: map<string, int>, ixTarget: nat)
      returns (e: Result<Option<ConvInfo>, Failure>)
      requires ixTarget < |fields| && sourceColumns == SourceColumns(columns)
      ensures e == IndexEntry(settings, fields, ixTarget, columns, tab.metadata, tab.blobTargets)
    {
      var name := fields[ixTarget].name;
      if name == settings.synthKeyField {
        return Ok(None);
      }
      var ci := FindColumn(tab.metadata, name);
      if ci.None? || name !in sourceColumns {
        return Ok(None);
      }
      var ixSource := sourceColumns[name];
      if settings.isBlob(ci.value.sqlType) {
        if name !in tab.blobTargets {
          return Ok(None);
        }
        var cm := if ci.value.blobAsObject then ConvMode.BlobObject else ConvMode.BlobStream;
        var blobPath := settings.database + "/" + tab.blobTargets[name].fullName;
        return Ok(Some(ConvInfo(ixSource, ixTarget, cm, Some(blobPath))));
      }
      var cm := ChooseMode(ixSource, ixTarget, fields, columns);
      if cm.Err? {
        return Err(cm.error);
      }
      return Ok(Some(ConvInfo(ixSource, ixTarget, cm.value, None)));
    }

    /** buildMainIndex: clears the index, then binds the target members in order. */
    method BuildMainIndex(fields: StructType, columns: seq<ColumnMeta>) returns (r: Result<(), Failure>)
      modifies this`mainIndex
      ensures r.Ok? <==> IndexFor(fields, columns).Ok?
      ensures r.Ok? ==> mainIndex == IndexFor(fields, columns).value
      ensures r.Err? ==> r.error == IndexFor(fields, columns).error
    {
      mainIndex := [];
      var sourceColumns := MapSourceColumns(columns);
      ghost var entries := Entries(settings, fields, columns, tab.metadata, tab.blobTargets);
      var ixTarget := 0;
      while ixTarget < |fields|
        invariant 0 <= ixTarget <= |fields| == |entries|
        invariant Collect(entries, ixTarget) == Ok(mainIndex)
      {
        var e := IndexMember(fields, columns, sourceColumns, ixTarget);
        EntryAt(settings, fields, columns, tab.metadata, tab.blobTargets, ixTarget);
        CollectNext(entries, ixTarget, e);
        if e.Err? {
          return Err(e.error);
        }
        if e.value.Some? {
          mainIndex := mainIndex + [e.value.value];
        }
        ixTarget := ixTarget + 1;
      }
      return Ok(());
    }

    /** makeBlobSaver: the existing saver, or a new one the first time. */
    method MakeBlobSaver() returns (saver: BlobSaver)
      requires Linked()
      modifies this`blobSaver
      ensures Linked() && blobSaver == saver
      ensures old(blobSaver) != null ==> saver == old(blobSaver)
      ensures old(blobSaver) == null ==> fresh(saver)
      ensures SavedBlobs() == old(SavedBlobs())
    {
      if blobSaver == null {
        blobSaver := new BlobSaver(settings.maxBlobRows, settings.blobIdOf);
      }
      saver := blobSaver;
    }

    /** flushBlobSaver: a flush when a saver exists, nothing otherwise. */
    method FlushBlobSaver()
      modifies this`log
      ensures log == old(log) + (if blobSaver != null then [BlobFlush] else [])
    {
      if blobSaver != null {
        log := log + [BlobFlush];
      }
    }

    /** convertBlob: opens the stream the mode names and saves it as a blob. */
    method ConvertBlob(f: Field, ci: ConvInfo) returns (res: Result<Value, Failure>)
      requires Linked()
      modifies this`blobSaver, blobSaver
      ensures Linked()
      ensures old(blobSaver) != null ==> blobSaver == old(blobSaver)
      ensures blobSaver != old(blobSaver) ==> fresh(blobSaver)
      ensures OpenStream(settings, f, ci.mode).None? ==>
        res == Err(BlobStreamFailed) && blobSaver == old(blobSaver) && SavedBlobs() == old(SavedBlobs())
      ensures OpenStream(settings, f, ci.mode).Some? ==>
        res == Ok(Int64Value(settings.blobIdOf(|old(SavedBlobs())|)))
        && SavedBlobs() == old(SavedBlobs()) + [BlobRecord(ci.blobPath, OpenStream(settings, f, ci.mode).value)]
    {
      var stream := OpenStream(settings, f, ci.mode);
      if stream.None? {
        return Err(BlobStreamFailed);
      }
      var saver := MakeBlobSaver();
      var id := saver.SaveBlob(stream.value, ci.blobPath);
      return Ok(Int64Value(id));
    }

    /** convertValue on one binding, with convertBlob for the blob modes. */
    method ConvertBinding(f: Field, ci: ConvInfo) returns (res: Result<Value, Failure>)
      requires Linked()
      modifies this`blobSaver, blobSaver
      ensures Linked()
      ensures old(blobSaver) != null ==> blobSaver == old(blobSaver)
      ensures blobSaver != old(blobSaver) ==> fresh(blobSaver)
      ensures var c := ConvertField(settings, f, ci, old(|SavedBlobs()|));
        (c.Err? ==> res == Err(c.error) && SavedBlobs() == old(SavedBlobs()))
        && (c.Ok? ==> res == Ok(c.value.value) && SavedBlobs() == old(SavedBlobs()) + c.value.blobs)
    {
      var c := settings.convert(f, ci.mode);
      if c.Err? {
        return Err(c.error);
      }
      if c.value.Converted? {
        return Ok(c.value.value);
      }
      res := ConvertBlob(f, ci);
    }

    /** calcSynthKey: the key function applied to the accumulator of the row. */
    method CalcSynthKey(columns: seq<ColumnMeta>, row: seq<Field>) returns (key: Value)
      requires |row| == |columns|
      ensures key == BytesValue(settings.keyOf(Accumulator(columns, row, settings.isBlob)))
    {
      var sb := "";
      var i := 1;
      while i <= |columns|
        invariant 1 <= i <= |columns| + 1
        invariant sb == AccumulatorUpTo(columns, row, settings.isBlob, i - 1)
      {
        if !settings.isBlob(columns[i - 1].sqlType) {
          var v := row[i - 1];
          if v.Present? {
            sb := sb + v.text;
          }
          sb := sb + [SEPARATOR];
        }
        i := i + 1;
      }
      key := BytesValue(settings.keyOf(sb));
    }

    /** One pass of convert's loop: binding k converted and stored into its
        member, which moves the array and the saved blobs from Fill's state for
        k bindings to its state for k + 1, or ends the row with Fill's failure. */
    method FillOne(fields: StructType, row: seq<Field>, members: array<Value>, index: seq<ConvInfo>, k: nat,
                   ghost before: seq<BlobRecord>)
      returns (failure: Option<Failure>)
      requires Linked() && k < |index| && IndexFits(index, |fields|, |row|) && members.Length == |fields|
      requires Filled(settings, fields, index, row, k, before, members[..], SavedBlobs())
      modifies this`blobSaver, blobSaver, members
      ensures Linked()
      ensures old(blobSaver) != null ==> blobSaver == old(blobSaver)
      ensures blobSaver != old(blobSaver) ==> fresh(blobSaver)
      ensures failure.None? ==> Filled(settings, fields, index, row, k + 1, before, members[..], SavedBlobs())
      ensures failure.Some? ==>
        var st := Fill(settings, fields, index, row, |index|, |before|);
        failure == st.failure && SavedBlobs() == before + st.blobs
    {
      ghost var members0, saved0 := members[..], SavedBlobs();
      var ci := index[k];
      var v := ConvertBinding(row[ci.sourceIndex - 1], ci);
      if v.Err? {
        failure := Some(ColumnFailed(fields[ci.targetIndex].name, v.error));
      } else {
        members[ci.targetIndex] := v.value;
        failure := None;
      }
      FillAdvance(settings, fields, index, row, k, before, members0, saved0, members[..], SavedBlobs(), failure);
      if failure.Some? {
        FillStops(settings, fields, index, row, k + 1, |index|, |before|);
      }
    }

    /** The loop of convert: each binding's conversion stored into its member,
        stopping at the first failure, reported with the member's name. */
    method FillMembers(fields: StructType, row: seq<Field>, members: array<Value>) returns (failure: Option<Failure>)
      requires Linked() && IndexFits(mainIndex, |fields|, |row|)
      requires members[..] == seq(|fields|, _ => VoidValue)
      modifies this`blobSaver, blobSaver, members
      ensures Linked()
      ensures old(blobSaver) != null ==> blobSaver == old(blobSaver)
      ensures blobSaver != old(blobSaver) ==> fresh(blobSaver)
      ensures var st := Fill(settings, fields, mainIndex, row, |mainIndex|, old(|SavedBlobs()|));
        failure == st.failure && SavedBlobs() == old(SavedBlobs()) + st.blobs
        && (failure.None? ==> members[..] == st.members)
    {
      ghost var before := SavedBlobs();
      assert before + [] == before;
      var index := mainIndex;
      var k := 0;
      while k < |index|
        invariant 0 <= k <= |index|
        invariant Linked()
        invariant old(blobSaver) != null ==> blobSaver == old(blobSaver)
        invariant blobSaver != old(blobSaver) ==> fresh(blobSaver)
        invariant members.Length == |fields| && |before| == old(|SavedBlobs()|)
        invariant Filled(settings, fields, index, row, k, before, members[..], SavedBlobs())
      {
        failure := FillOne(fields, row, members, index, k, before);
        if failure.Some? {
          return failure;
        }
        k := k + 1;
      }
      assert Filled(settings, fields, index, row, |index|, before, members[..], SavedBlobs());
      return None;
    }

    /** convert: fills an all-Void member array from the bindings, then the synthetic key. */
    method Convert(fields: StructType, columns: seq<ColumnMeta>, row: seq<Field>) returns (res: Result<seq<Value>, Failure>)
      requires Valid() && |row| == |columns| && IndexFits(mainIndex, |fields|, |columns|)
      modifies this`blobSaver, blobSaver
      ensures Valid()
      ensures old(blobSaver) != null ==> blobSaver == old(blobSaver)
      ensures blobSaver != old(blobSaver) ==> fresh(blobSaver)
      ensures var st := ConvertRow(settings, fields, mainIndex, target.synthKeyPos, columns, row, old(|SavedBlobs()|));
        SavedBlobs() == old(SavedBlobs()) + st.blobs
        && res == (if st.failure.Some? then Err(st.failure.value) else Ok(st.members))
    {
      var members := new Value[|fields|](_ => VoidValue);
      var failure := FillMembers(fields, row, members);
      if failure.Some? {
        return Err(failure.value);
      }
      if target.synthKeyPos.Some? {
        var pos := target.synthKeyPos.value;
        if pos < 0 || pos >= members.Length {
          return Err(IndexOutOfBounds);
        }
        var key := CalcSynthKey(columns, row);
        members[pos] := key;
      }
      return Ok(members[..]);
    }

    /** Whether every step of copyData but the final writes goes through. */
    function CopyOutcome(rs: ResultSet): (r: Result<RowsState, Failure>)
      requires rs.WellFormed()
      reads this, tab, target, blobSaver
      ensures r.Ok? ==> r.value.failure.None? ==> |r.value.converted| == |rs.rows|
    {
      var fields := target.fields;
      match IndexFor(fields, rs.columns)
      case Err(e) => Err(e)
      case Ok(index) =>
        if settings.maxBatchRows < 0 then Err(IllegalCapacity)
        else
          MainIndexShape(settings, fields, rs.columns, tab.metadata, tab.blobTargets);
          Ok(ConvertRows(settings, fields, index, target.synthKeyPos, rs.columns, rs.rows, |rs.rows|, |SavedBlobs()|))
    }

    /** Adds a converted row to the pending batch and sends the batch once it
        holds maxBatchRows rows. */
    method Enqueue(batch: seq<seq<Value>>, x: seq<Value>, ghost log0: seq<UpsertEvent>, ghost converted: seq<seq<Value>>)
      returns (next: seq<seq<Value>>)
      requires settings.maxBatchRows >= 0
      requires Batched(mainTablePath, log0, converted, BatchSize(settings.maxBatchRows), log, batch)
      modifies this`log
      ensures Batched(mainTablePath, log0, converted + [x], BatchSize(settings.maxBatchRows), log, next)
    {
      var maxRows := settings.maxBatchRows;
      BatchAdvance(mainTablePath, log0, converted, maxRows, log, batch, x);
      next := batch + [x];
      if |next| >= maxRows {
        log := log + [Upsert(mainTablePath, next)];
        next := [];
      }
    }

    /** One pass of copyData's row loop: the row converted and added to the
        pending batch, which is sent once it holds maxBatchRows rows. */
    method CopyRow(fields: StructType, columns: seq<ColumnMeta>, rows: seq<seq<Field>>, i: nat, batch: seq<seq<Value>>,
                   ghost blobs0: seq<BlobRecord>, ghost log0: seq<UpsertEvent>, ghost converted: seq<seq<Value>>)
      returns (failure: Option<Failure>, next: seq<seq<Value>>, ghost converted': seq<seq<Value>>)
      requires Valid() && IndexFits(mainIndex, |fields|, |columns|) && RowsFit(rows, |columns|) && i < |rows|
      requires settings.maxBatchRows >= 0
      requires RowsCopied(settings, fields, mainIndex, target.synthKeyPos, columns, rows, i, blobs0, converted, SavedBlobs())
      requires Batched(mainTablePath, log0, converted, BatchSize(settings.maxBatchRows), log, batch)
      modifies this`log, this`blobSaver, blobSaver
      ensures Valid()
      ensures old(blobSaver) != null ==> blobSaver == old(blobSaver)
      ensures blobSaver != old(blobSaver) ==> fresh(blobSaver)
      ensures failure.None? ==>
        RowsCopied(settings, fields, mainIndex, target.synthKeyPos, columns, rows, i + 1, blobs0, converted', SavedBlobs())
        && Batched(mainTablePath, log0, converted', BatchSize(settings.maxBatchRows), log, next)
      ensures failure.Some? ==>
        var want := ConvertRows(settings, fields, mainIndex, target.synthKeyPos, columns, rows, |rows|, |blobs0|);
        failure == want.failure && want.converted == converted && SavedBlobs() == blobs0 + want.blobs
        && log == old(log) && next == batch
    {
      ghost var saved0 := SavedBlobs();
      var row := Convert(fields, columns, rows[i]);
      RowsAdvance(settings, fields, mainIndex, target.synthKeyPos, columns, rows, i, blobs0, converted, saved0, SavedBlobs(), row);
      if row.Err? {
        return Some(row.error), batch, converted;
      }
      next := Enqueue(batch, row.value, log0, converted);
      converted' := converted + [row.value];
      failure := None;
    }

    /** The row loop of copyData: each row converted in cursor order and added
        to the pending batch, which is sent once it holds maxBatchRows rows. */
    method CopyRows(fields: StructType, columns: seq<ColumnMeta>, rows: seq<seq<Field>>)
      returns (failure: Option<Failure>, batch: seq<seq<Value>>)
      requires Valid() && IndexFits(mainIndex, |fields|, |columns|) && RowsFit(rows, |columns|)
      requires settings.maxBatchRows >= 0
      modifies this`log, this`blobSaver, blobSaver
      ensures Valid()
      ensures old(blobSaver) != null ==> blobSaver == old(blobSaver)
      ensures blobSaver != old(blobSaver) ==> fresh(blobSaver)
      ensures var want := ConvertRows(settings, fields, mainIndex, target.synthKeyPos, columns, rows, |rows|, old(|SavedBlobs()|));
        failure == want.failure
        && SavedBlobs() == old(SavedBlobs()) + want.blobs
        && log == old(log) + Upserts(mainTablePath, Batch(want.converted, BatchSize(settings.maxBatchRows)).full)
        && batch == Batch(want.converted, BatchSize(settings.maxBatchRows)).rest
    {
      ghost var log0 := log;
      ghost var blobs0 := SavedBlobs();
      ghost var converted: seq<seq<Value>> := [];
      batch := [];
      assert blobs0 + [] == blobs0;
      assert log0 + [] == log0;
      var i := 0;
      while i < |rows|
        invariant 0 <= i <= |rows|
        invariant Linked()
        invariant old(blobSaver) != null ==> blobSaver == old(blobSaver)
        invariant blobSaver != old(blobSaver) ==> fresh(blobSaver)
        invariant RowsCopied(settings, fields, mainIndex, target.synthKeyPos, columns, rows, i, blobs0, converted, SavedBlobs())
        invariant Batched(mainTablePath, log0, converted, BatchSize(settings.maxBatchRows), log, batch)
      {
        failure, batch, converted := CopyRow(fields, columns, rows, i, batch, blobs0, log0, converted);
        if failure.Some? {
          return;
        }
        i := i + 1;
      }
      return None, batch;
    }

    /** The end of copyData: the blob saver flushed, the remainder sent, the
        executor told to finish. */
    method FinishCopy(batch: seq<seq<Value>>)
      modifies this`log
      ensures log == old(log) + (if blobSaver != null then [BlobFlush] else [])
                     + (if batch != [] then [Upsert(mainTablePath, batch)] else []) + [Finish]
    {
      FlushBlobSaver();
      if batch != [] {
        log := log + [Upsert(mainTablePath, batch)];
      }
      log := log + [Finish];
    }

    /** copyData once the index is built: the rows copied, then the end. */
    method CopyIndexed(fields: StructType, rs: ResultSet, writesOk: bool) returns (res: Result<(), Failure>)
      requires Valid() && rs.WellFormed() && settings.maxBatchRows >= 0
      requires IndexFits(mainIndex, |fields|, |rs.columns|)
      modifies this`log, this`blobSaver, blobSaver
      ensures Valid()
      ensures var want := ConvertRows(settings, fields, mainIndex, target.synthKeyPos, rs.columns, rs.rows, |rs.rows|, old(|SavedBlobs()|));
        var sent := Upserts(mainTablePath, Batch(want.converted, BatchSize(settings.maxBatchRows)).full);
        SavedBlobs() == old(SavedBlobs()) + want.blobs
        && (want.failure.Some? ==> res == Err(want.failure.value) && log == old(log) + sent)
        && (want.failure.None? ==>
              res == (if writesOk then Ok(()) else Err(WriteFailed))
              && log == old(log) + Schedule(mainTablePath, want.converted, BatchSize(settings.maxBatchRows), blobSaver != null))
    {
      ghost var log0 := log;
      var failure, batch := CopyRows(fields, rs.columns, rs.rows);
      if failure.Some? {
        return Err(failure.value);
      }
      ghost var sent := log[|log0|..];
      assert log == log0 + sent;
      FinishCopy(batch);
      ghost var flush: seq<UpsertEvent> := if blobSaver != null then [BlobFlush] else [];
      ghost var rest: seq<UpsertEvent> := if batch != [] then [Upsert(mainTablePath, batch)] else [];
      AppendAssoc4(log0, sent, flush, rest, [Finish]);
      if !writesOk {
        return Err(WriteFailed);
      }
      return Ok(());
    }

    /** copyData: builds the index, converts the rows in cursor order, sends a
        batch each time it reaches maxBatchRows, flushes the blob saver, sends
        the remainder and waits for the writes. */
    method CopyData(rs: ResultSet, writesOk: bool) returns (res: Result<(), Failure>)
      requires Valid() && rs.WellFormed()
      modifies this, blobSaver
      ensures Valid()
      ensures var c := old(CopyOutcome(rs));
        (c.Err? ==> res == Err(c.error) && log == old(log))
        && (c.Ok? && c.value.failure.Some? ==>
              res == Err(c.value.failure.value)
              && log == old(log) + Upserts(mainTablePath, Batch(c.value.converted, BatchSize(settings.maxBatchRows)).full)
              && SavedBlobs() == old(SavedBlobs()) + c.value.blobs)
        && (c.Ok? && c.value.failure.None? ==>
              res == (if writesOk then Ok(()) else Err(WriteFailed))
              && log == old(log) + Schedule(mainTablePath, c.value.converted, BatchSize(settings.maxBatchRows), blobSaver != null)
              && SavedBlobs() == old(SavedBlobs()) + c.value.blobs)
    {
      ghost var outcome := CopyOutcome(rs);
      var fields := target.fields;
      var r := BuildMainIndex(fields, rs.columns);
      if r.Err? {
        return Err(r.error);
      }
      MainIndexShape(settings, fields, rs.columns, tab.metadata, tab.blobTargets);
      if settings.maxBatchRows < 0 {
        return Err(IllegalCapacity);
      }
      assert outcome == Ok(ConvertRows(settings, fields, mainIndex, target.synthKeyPos, rs.columns, rs.rows, |rs.rows|, |SavedBlobs()|));
      res := CopyIndexed(fields, rs, writesOk);
    }

    /** call: skips an invalid table, then a failed one, without touching the
        source; otherwise copies the data and reports success with the number
        of rows handed to the executor. */
    method Call(source: Result<ResultSet, Failure>, writesOk: bool) returns (out: Out)
      requires Valid()
      requires source.Ok? ==> source.value.WellFormed()
      modifies this, blobSaver
      ensures Valid() && out.tab == tab
      ensures !tab.valid || tab.failure ==>
        out == Out(tab, false, 0) && log == old(log) && blobSaver == old(blobSaver) && mainIndex == old(mainIndex)
      ensures tab.valid && !tab.failure ==> out.rowCount == SubmittedRows(log)
      ensures tab.valid && !tab.failure && source.Err? ==> !out.success && log == old(log)
      ensures tab.valid && !tab.failure && source.Ok? ==>
        var c := old(CopyOutcome(source.value));
        (out.success <==> c.Ok? && c.value.failure.None? && writesOk)
      ensures out.success ==> out.rowCount == old(SubmittedRows(log)) + |source.value.rows|
    {
      if !tab.valid {
        return Out(tab, false, 0);
      }
      if tab.failure {
        return Out(tab, false, 0);
      }
      if source.Err? {
        return Out(tab, false, SubmittedRows(log));
      }
      ghost var log0 := log;
      var r := CopyData(source.value, writesOk);
      if r.Err? {
        return Out(tab, false, SubmittedRows(log));
      }
      ghost var c := old(CopyOutcome(source.value));
      ScheduleSubmitsEveryRow(mainTablePath, c.value.converted, BatchSize(settings.maxBatchRows), blobSaver != null);
      SubmittedRowsAppend(log0, Schedule(mainTablePath, c.value.converted, BatchSize(settings.maxBatchRows), blobSaver != null));
      return Out(tab, true, SubmittedRows(log));
    }
  }
}
