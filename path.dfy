/**
 * PathReplace: a URL path template whose placeholders are filled in one at
 * a time. Every setter replaces the first occurrence of its placeholder
 * and returns the same object, so chained calls apply left to right.
 */
module Path {
  import opened Wrappers
  import opened Strings

  const ReplaceNamespace := ":namespace"
  const ReplaceObjectAPIName := ":objectAPIName"
  const ReplaceFieldAPIName := ":fieldAPIName"
  const ReplaceFunctionAPIName := ":functionAPIName"
  const ReplaceRecordID := ":recordID"
  const ReplaceFileID := ":fileID"
  const ReplaceExecutionID := ":executionId"
  const ReplaceAPIName := ":apiName"

  class PathReplace {
    var path: string

    /** NewPathReplace. */
    constructor (path: string)
      ensures this.path == path
    {
      this.path := path;
    }

    function Path(): (r: string)
      reads this
      ensures r == path
    {
      path
    }

    method Namespace(namespace: string) returns (p: PathReplace)
      modifies this
      ensures p == this && path == ReplaceFirst(old(path), ReplaceNamespace, namespace)
    {
      path := ReplaceFirst(path, ReplaceNamespace, namespace);
      return this;
    }

    method ObjectAPIName(objectAPIName: string) returns (p: PathReplace)
      modifies this
      ensures p == this && path == ReplaceFirst(old(path), ReplaceObjectAPIName, objectAPIName)
    {
      path := ReplaceFirst(path, ReplaceObjectAPIName, objectAPIName);
      return this;
    }

    method FieldAPIName(fieldAPIName: string) returns (p: PathReplace)
      modifies this
      ensures p == this && path == ReplaceFirst(old(path), ReplaceFieldAPIName, fieldAPIName)
    {
      path := ReplaceFirst(path, ReplaceFieldAPIName, fieldAPIName);
      return this;
    }

    /** The id is inserted in base 10. */
    method RecordID(recordID: int) returns (p: PathReplace)
      modifies this
      ensures p == this && path == ReplaceFirst(old(path), ReplaceRecordID, IntToString(recordID))
    {
      path := ReplaceFirst(path, ReplaceRecordID, IntToString(recordID));
      return this;
    }

    method FileID(fileID: string) returns (p: PathReplace)
      modifies this
      ensures p == this && path == ReplaceFirst(old(path), ReplaceFileID, fileID)
    {
      path := ReplaceFirst(path, ReplaceFileID, fileID);
      return this;
    }

    method FunctionAPIName(functionAPIName: string) returns (p: PathReplace)
      modifies this
      ensures p == this && path == ReplaceFirst(old(path), ReplaceFunctionAPIName, functionAPIName)
    {
      path := ReplaceFirst(path, ReplaceFunctionAPIName, functionAPIName);
      return this;
    }

    /** The id is inserted in base 10. */
    method ExecutionID(instanceID: int) returns (p: PathReplace)
      modifies this
      ensures p == this && path == ReplaceFirst(old(path), ReplaceExecutionID, IntToString(instanceID))
    {
      path := ReplaceFirst(path, ReplaceExecutionID, IntToString(instanceID));
      return this;
    }

    method APIName(apiName: string) returns (p: PathReplace)
      modifies this
      ensures p == this && path == ReplaceFirst(old(path), ReplaceAPIName, apiName)
    {
      path := ReplaceFirst(path, ReplaceAPIName, apiName);
      return this;
    }
  }

  /** A fresh template reads back unchanged. */
  method NewPathRoundTrip(s: string) returns (r: string)
    ensures r == s
  {
    var p := new PathReplace(s);
    r := p.Path();
  }

  /** Filling two placeholders by a chain: the result is the template with both substituted, in order. */
  method ChainAppliesInOrder(template: string, namespace: string, objectAPIName: string) returns (r: string)
    ensures r == ReplaceFirst(ReplaceFirst(template, ReplaceNamespace, namespace), ReplaceObjectAPIName, objectAPIName)
  {
    var p := new PathReplace(template);
    var q := p.Namespace(namespace);
    q := q.ObjectAPIName(objectAPIName);
    r := p.Path();
  }

  /** Only the first of two record-id placeholders is filled. */
  lemma FirstOccurrenceOnly()
    ensures ReplaceFirst("/r/:recordID/:recordID", ReplaceRecordID, "7") == "/r/7/:recordID"
  {
    var s := "/r/:recordID/:recordID";
    assert OccursAt(s, ReplaceRecordID, 3);
    assert s[0] == '/' && s[1] == 'r' && s[2] == '/' && ReplaceRecordID[0] == ':';
    assert forall j :: 0 <= j < 3 ==> s[j] != ReplaceRecordID[0];
    assert forall j :: 0 <= j < 3 ==> !OccursAt(s, ReplaceRecordID, j);
    assert Index(s, ReplaceRecordID) == Some(3);
  }
}
