/**
 * The record/field "unauth" table: for each object API name and record id,
 * the fields the caller may not see. Id resolution and the JSON decoding of
 * records are inputs: a record is `None` when it is nil, otherwise its
 * resolved id.
 */
module Permission {
  import opened Wrappers

  type Table = map<string, map<int, seq<string>>>

  /** The fields recorded for (obj, id), or none; the lookup of GetRecordUnauthFieldByObjectAndRecordID. */
  function FieldsOf(t: Table, obj: string, id: int): (r: seq<string>)
    ensures obj in t && id in t[obj] ==> r == t[obj][id]
    ensures !(obj in t && id in t[obj]) ==> r == []
  {
    if obj in t && id in t[obj] then t[obj][id] else []
  }

  /** Whether AppendUnauthFieldRecord writes anything for these arguments. */
  predicate Writes(obj: string, record: Option<int>, fields: seq<string>)
  {
    obj != "" && record.Some? && |fields| > 0 && record.value > 0
  }

  /** The table after AppendUnauthFieldRecord on it. */
  function Append(t: Table, obj: string, record: Option<int>, fields: seq<string>): Table
  {
    if !Writes(obj, record, fields) then t
    else t[obj := (if obj in t then t[obj] else map[])[record.value := fields]]
  }

  /** An empty object name, a nil record, an empty field list or a non-positive id leaves the table alone. */
  lemma AppendNoOp(t: Table, obj: string, record: Option<int>, fields: seq<string>)
    requires obj == "" || record.None? || |fields| == 0 || record.value <= 0
    ensures Append(t, obj, record, fields) == t
  {
  }

  /** Otherwise exactly the entry (obj, id) is set to the field list; every other entry is unchanged. */
  lemma AppendWrites(t: Table, obj: string, id: int, fields: seq<string>)
    requires obj != "" && id > 0 && |fields| > 0
    ensures var r := Append(t, obj, Some(id), fields);
      && obj in r && FieldsOf(r, obj, id) == fields
      && r.Keys == t.Keys + {obj}
      && (forall o :: o in t && o != obj ==> r[o] == t[o])
      && r[obj].Keys == (if obj in t then t[obj].Keys else {}) + {id}
      && (forall i :: i in r[obj] && i != id ==> r[obj][i] == t[obj][i])
  {
  }

  /** Appending twice for the same record keeps only the later field list. */
  lemma AppendTwiceKeepsLater(t: Table, obj: string, id: int, first: seq<string>, second: seq<string>)
    requires |second| > 0
    ensures Append(Append(t, obj, Some(id), first), obj, Some(id), second) == Append(t, obj, Some(id), second)
  {
    if Writes(obj, Some(id), second) {
      var inner := if obj in t then t[obj] else map[];
      assert inner[id := first][id := second] == inner[id := second];
    }
  }

  /** The effect of the loop of AppendUnauthFieldRecordList over its first |ids| records. */
  function AppendAll(t: Table, obj: string, ids: seq<int>, lists: seq<seq<string>>): Table
    requires |ids| == |lists|
  {
    if ids == [] then t
    else Append(AppendAll(t, obj, ids[..|ids|-1], lists[..|lists|-1]), obj, Some(ids[|ids|-1]), lists[|lists|-1])
  }

  /** The table after AppendUnauthFieldRecordList; `records` is None when nil or not decodable. */
  function AppendList(t: Table, obj: string, records: Option<seq<int>>, lists: seq<seq<string>>): Table
  {
    if obj == "" || records.None? || |lists| == 0 || |records.value| != |lists| then t
    else AppendAll(t, obj, records.value, lists)
  }

  /** A record count that differs from the number of field lists leaves the table alone. */
  lemma AppendListMismatch(t: Table, obj: string, ids: seq<int>, lists: seq<seq<string>>)
    requires |ids| != |lists|
    ensures AppendList(t, obj, Some(ids), lists) == t
  {
  }

  /** The list loop touches no object other than `obj`. */
  lemma {:induction false} AppendAllOtherObjects(t: Table, obj: string, ids: seq<int>, lists: seq<seq<string>>)
    requires |ids| == |lists|
    ensures var r := AppendAll(t, obj, ids, lists);
      r.Keys - {obj} == t.Keys - {obj} && forall o :: o in t && o != obj ==> o in r && r[o] == t[o]
  {
    if ids != [] {
      AppendAllOtherObjects(t, obj, ids[..|ids|-1], lists[..|lists|-1]);
    }
  }

  /**
   * With distinct record ids, the i-th record gets the i-th field list
   * whenever that list is non-empty and the id positive; the record ids not
   * in the list keep what they had.
   */
  lemma {:induction false} AppendAllSpec(t: Table, obj: string, ids: seq<int>, lists: seq<seq<string>>)
    requires |ids| == |lists| && obj != ""
    requires forall i, j :: 0 <= i < j < |ids| ==> ids[i] != ids[j]
    ensures var r := AppendAll(t, obj, ids, lists);
      && (forall i :: 0 <= i < |ids| && ids[i] > 0 && |lists[i]| > 0 ==> FieldsOf(r, obj, ids[i]) == lists[i])
      && (forall id :: id !in ids ==> FieldsOf(r, obj, id) == FieldsOf(t, obj, id))
  {
    if ids != [] {
      var n := |ids| - 1;
      var ids', lists' := ids[..n], lists[..n];
      AppendAllSpec(t, obj, ids', lists');
      var prev := AppendAll(t, obj, ids', lists');
      var r := AppendAll(t, obj, ids, lists);
      assert r == Append(prev, obj, Some(ids[n]), lists[n]);
      forall i | 0 <= i < |ids| && ids[i] > 0 && |lists[i]| > 0
        ensures FieldsOf(r, obj, ids[i]) == lists[i]
      {
        if i < n {
          assert ids'[i] == ids[i] && lists'[i] == lists[i];
        }
      }
      forall id | id !in ids
        ensures FieldsOf(r, obj, id) == FieldsOf(t, obj, id)
      {
        assert id !in ids' by {
          assert forall k :: 0 <= k < n ==> ids'[k] == ids[k] != id;
        }
        assert id != ids[n];
      }
    }
  }

  /** An IOParamItem of a function's metadata: which parameter, its type name and its object. */
  datatype IOParamItem = IOParamItem(key: string, paramType: string, objectAPIName: string)

  datatype FunctionIOParam = FunctionIOParam(input: seq<IOParamItem>, output: seq<IOParamItem>)

  /**
   * The two decodings of one parameter value: the record id GetRecordID
   * finds (0 when there is none), and the record ids of the list decoding
   * (None when the value does not decode as a list).
   */
  datatype Arg = Arg(recordID: int, records: Option<seq<int>>)

  /** A collected entry of Permission.UnauthFields. */
  datatype Unauth = Fields(fields: seq<string>) | FieldsList(lists: seq<seq<string>>)

  /** The parameters to inspect: the input or output list, and none for any other direction. */
  function SelectParams(io: FunctionIOParam, inputOrOutput: string): (r: seq<IOParamItem>)
    ensures inputOrOutput == "input" ==> r == io.input
    ensures inputOrOutput == "output" ==> r == io.output
    ensures inputOrOutput != "input" && inputOrOutput != "output" ==> r == []
  {
    if inputOrOutput == "input" then io.input
    else if inputOrOutput == "output" then io.output
    else []
  }

  /** A parameter missing from the data is nil: id 0, and an empty record list. */
  function ArgOf(data: map<string, Arg>, key: string): Arg
  {
    if key in data then data[key] else Arg(0, Some([]))
  }

  function FieldsLists(t: Table, obj: string, ids: seq<int>): (r: seq<seq<string>>)
    ensures |r| == |ids| && forall i :: 0 <= i < |ids| ==> r[i] == FieldsOf(t, obj, ids[i])
  {
    if ids == [] then [] else FieldsLists(t, obj, ids[..|ids|-1]) + [FieldsOf(t, obj, ids[|ids|-1])]
  }

  predicate SomeNonEmpty(lists: seq<seq<string>>)
  {
    exists i :: 0 <= i < |lists| && |lists[i]| > 0
  }

  /** One iteration of the parameter loop of CalcParamsNeedPermission; None is the decode failure that aborts it. */
  function CollectOne(t: Table, data: map<string, Arg>, acc: map<string, Unauth>, p: IOParamItem): Option<map<string, Unauth>>
  {
    if p.paramType == "Record" then
      Some(acc[p.key := Fields(FieldsOf(t, p.objectAPIName, ArgOf(data, p.key).recordID))])
    else if p.paramType == "RecordList" then
      match ArgOf(data, p.key).records
      case None => None
      case Some(ids) =>
        var lists := FieldsLists(t, p.objectAPIName, ids);
        if SomeNonEmpty(lists) then Some(acc[p.key := FieldsList(lists)]) else Some(acc)
    else Some(acc)
  }

  /** The entries collected over the parameters `ps`, in order. */
  function Collect(t: Table, data: map<string, Arg>, ps: seq<IOParamItem>): Option<map<string, Unauth>>
  {
    if ps == [] then Some(map[])
    else match Collect(t, data, ps[..|ps|-1])
      case None => None
      case Some(acc) => CollectOne(t, data, acc, ps[|ps|-1])
  }

  /** A failed decoding aborts the whole collection. */
  lemma {:induction false} CollectAborts(t: Table, data: map<string, Arg>, ps: seq<IOParamItem>, i: nat)
    requires i <= |ps| && Collect(t, data, ps[..i]).None?
    ensures Collect(t, data, ps).None?
    decreases |ps| - i
  {
    if i < |ps| {
      assert ps[..i+1][..i] == ps[..i];
      CollectAborts(t, data, ps, i + 1);
    } else {
      assert ps[..i] == ps;
    }
  }

  /**
   * The permission CalcParamsNeedPermission returns: none for nil or
   * undecodable params, missing metadata, a failed list decoding, or an
   * empty collection.
   */
  function NeedPermission(t: Table, params: Option<map<string, Arg>>, meta: Option<FunctionIOParam>, inputOrOutput: string): Option<map<string, Unauth>>
  {
    if params.None? || meta.None? then None
    else match Collect(t, params.value, SelectParams(meta.value, inputOrOutput))
      case None => None
      case Some(m) => if |m| > 0 then Some(m) else None
  }

  /** A RecordList entry is collected only when some record has unauth fields. */
  lemma {:induction false} CollectRecordListNonEmpty(t: Table, data: map<string, Arg>, ps: seq<IOParamItem>)
    ensures Collect(t, data, ps).Some? ==>
      forall k :: k in Collect(t, data, ps).value && Collect(t, data, ps).value[k].FieldsList? ==>
        SomeNonEmpty(Collect(t, data, ps).value[k].lists)
  {
    if ps != [] {
      CollectRecordListNonEmpty(t, data, ps[..|ps|-1]);
    }
  }

  /** Every Record parameter gets an entry, even one with no unauth fields. */
  lemma {:induction false} CollectRecordPresent(t: Table, data: map<string, Arg>, ps: seq<IOParamItem>)
    ensures Collect(t, data, ps).Some? ==>
      forall i :: 0 <= i < |ps| && ps[i].paramType == "Record" ==> ps[i].key in Collect(t, data, ps).value
  {
    if ps != [] {
      var n := |ps| - 1;
      CollectRecordPresent(t, data, ps[..n]);
      if Collect(t, data, ps).Some? {
        assert Collect(t, data, ps[..n]).Some?;
        forall i | 0 <= i < |ps| && ps[i].paramType == "Record"
          ensures ps[i].key in Collect(t, data, ps).value
        {
          if i < n {
            assert ps[..n][i] == ps[i];
          }
        }
      }
    }
  }

  /**
   * The only table is the one the record writers reach. As written,
   * GetRecordUnauthField hands back a JSON-decoded copy of the table stored
   * in the context, and the writers update that copy.
   */
  class UnauthFieldTable {
    var table: Table

    constructor (t: Table)
      ensures table == t
    {
      table := t;
    }

    /** AppendUnauthFieldRecord, writing into the table itself. */
    method AppendUnauthFieldRecord(obj: string, record: Option<int>, fields: seq<string>)
      modifies this
      ensures table == Append(old(table), obj, record, fields)
    {
      if obj == "" || record.None? || |fields| == 0 {
        return;
      }
      var id := record.value;
      if id <= 0 {
        return;
      }
      if obj !in table {
        table := table[obj := map[]];
      }
      table := table[obj := table[obj][id := fields]];
    }

    /** AppendUnauthFieldRecordList: the i-th record's id gets the i-th field list. */
    method AppendUnauthFieldRecordList(obj: string, records: Option<seq<int>>, lists: seq<seq<string>>)
      modifies this
      ensures table == AppendList(old(table), obj, records, lists)
    {
      if obj == "" || records.None? || |lists| == 0 {
        return;
      }
      var ids := records.value;
      if |ids| != |lists| {
        return;
      }
      for i := 0 to |ids|
        invariant table == AppendAll(old(table), obj, ids[..i], lists[..i])
      {
        assert ids[..i+1][..i] == ids[..i] && lists[..i+1][..i] == lists[..i];
        AppendUnauthFieldRecord(obj, Some(ids[i]), lists[i]);
      }
      assert ids[..|ids|] == ids && lists[..|lists|] == lists;
    }

    /** The unauth fields of each id, in order. */
    method ListFields(obj: string, ids: seq<int>) returns (lists: seq<seq<string>>, hasUnauthFields: bool)
      ensures lists == FieldsLists(table, obj, ids)
      ensures hasUnauthFields <==> SomeNonEmpty(lists)
    {
      lists := [];
      hasUnauthFields := false;
      for i := 0 to |ids|
        invariant lists == FieldsLists(table, obj, ids[..i])
        invariant hasUnauthFields <==> SomeNonEmpty(lists)
      {
        assert ids[..i+1][..i] == ids[..i];
        var fields := FieldsOf(table, obj, ids[i]);
        if |fields| > 0 {
          hasUnauthFields := true;
        }
        lists := lists + [fields];
      }
      assert ids[..|ids|] == ids;
    }

    /** CalcParamsNeedPermission's result shaping over the table. */
    method CalcParamsNeedPermission(params: Option<map<string, Arg>>, meta: Option<FunctionIOParam>, inputOrOutput: string)
      returns (perm: Option<map<string, Unauth>>)
      ensures perm == NeedPermission(table, params, meta, inputOrOutput)
      ensures params.None? || meta.None? ==> perm.None?
      ensures perm.Some? ==> |perm.value| > 0
    {
      if params.None? || meta.None? {
        return None;
      }
      var data := params.value;
      var ps := SelectParams(meta.value, inputOrOutput);
      var acc: map<string, Unauth> := map[];
      for i := 0 to |ps|
        invariant Collect(table, data, ps[..i]) == Some(acc)
      {
        assert ps[..i+1][..i] == ps[..i];
        var p := ps[i];
        if p.paramType == "Record" {
          acc := acc[p.key := Fields(FieldsOf(table, p.objectAPIName, ArgOf(data, p.key).recordID))];
        } else if p.paramType == "RecordList" {
          var records := ArgOf(data, p.key).records;
          if records.None? {
            CollectAborts(table, data, ps, i + 1);
            return None;
          }
          var lists, hasUnauthFields := ListFields(p.objectAPIName, records.value);
          if hasUnauthFields {
            acc := acc[p.key := FieldsList(lists)];
          }
        }
      }
      assert ps[..|ps|] == ps;
      if |acc| > 0 {
        return Some(acc);
      }
      return None;
    }
  }

  /**
   * GetRecordUnauthField as written: the value kept in the context is
   * marshalled to JSON and decoded into a new map, so the caller receives a
   * fresh table with the same contents, never the context's own table.
   */
  method GetRecordUnauthField(stored: UnauthFieldTable) returns (decoded: UnauthFieldTable)
    ensures fresh(decoded) && decoded.table == stored.table
  {
    decoded := new UnauthFieldTable(stored.table);
  }

  /**
   * AppendUnauthFieldRecord as written: after the guards it writes into the
   * decoded table and returns nothing, so `stored`, the context's table, is
   * not changed. The result is that decoded table, or null when a guard returns.
   */
  method AppendUnauthFieldRecordAsWritten(stored: UnauthFieldTable, obj: string, record: Option<int>, fields: seq<string>)
    returns (local: UnauthFieldTable?)
    ensures Writes(obj, record, fields) ==> local != null && fresh(local) && local.table == Append(stored.table, obj, record, fields)
    ensures !Writes(obj, record, fields) ==> local == null
  {
    if obj == "" || record.None? || |fields| == 0 {
      return null;
    }
    if record.value <= 0 {
      return null;
    }
    local := GetRecordUnauthField(stored);
    local.AppendUnauthFieldRecord(obj, record, fields);
  }

  /**
   * WriteUnauthFieldMapWithLock as written: the same unconditional write into
   * the decoded table, which is then dropped.
   */
  method WriteUnauthFieldMapWithLockAsWritten(stored: UnauthFieldTable, obj: string, id: int, fields: seq<string>)
    returns (local: UnauthFieldTable)
    ensures fresh(local) && FieldsOf(local.table, obj, id) == fields
    ensures forall o, i :: (o != obj || i != id) ==> FieldsOf(local.table, o, i) == FieldsOf(stored.table, o, i)
  {
    local := GetRecordUnauthField(stored);
    if obj !in local.table {
      local.table := local.table[obj := map[]];
    }
    local.table := local.table[obj := local.table[obj][id := fields]];
  }

  /**
   * For every table and every write that passes the guards: the decoded copy
   * receives the fields while the context's table reads the same before and
   * after the call, so the write is lost whenever the context did not already
   * hold exactly those fields.
   */
  method AppendLostFromContext(stored: UnauthFieldTable, obj: string, id: int, fields: seq<string>)
    returns (before: seq<string>, after: seq<string>, inCopy: seq<string>)
    requires obj != "" && id > 0 && |fields| > 0
    ensures before == FieldsOf(stored.table, obj, id)
    ensures inCopy == fields
    ensures after == before
    ensures before != fields ==> after != inCopy
  {
    before := FieldsOf(stored.table, obj, id);
    var local := AppendUnauthFieldRecordAsWritten(stored, obj, Some(id), fields);
    AppendWrites(stored.table, obj, id, fields);
    inCopy := FieldsOf(local.table, obj, id);
    after := FieldsOf(stored.table, obj, id);
  }

  /** The same loss for WriteUnauthFieldMapWithLock, for every input. */
  method WriteLostFromContext(stored: UnauthFieldTable, obj: string, id: int, fields: seq<string>)
    returns (before: seq<string>, after: seq<string>, inCopy: seq<string>)
    ensures before == FieldsOf(stored.table, obj, id)
    ensures inCopy == fields
    ensures after == before
  {
    before := FieldsOf(stored.table, obj, id);
    var local := WriteUnauthFieldMapWithLockAsWritten(stored, obj, id, fields);
    inCopy := FieldsOf(local.table, obj, id);
    after := FieldsOf(stored.table, obj, id);
  }

  /** On an empty context table, field "f" of record 5 of "obj" is written to the copy and is missing from the context. */
  method AppendLostOnEmptyTable() returns (inContext: seq<string>, inCopy: seq<string>)
    ensures inContext == [] && inCopy == ["f"]
  {
    var stored := new UnauthFieldTable(map[]);
    var before, after;
    before, after, inCopy := AppendLostFromContext(stored, "obj", 5, ["f"]);
    inContext := after;
  }
}
