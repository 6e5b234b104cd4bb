/**
 * The loop every task function of bhashini_api.py ends with: scan
 * `response_data.get('pipelineResponse', [])` for the first entry of the wanted
 * task type whose `output` is non-empty, return one field of `output[0]`
 * (`''` when it is absent), and raise when no entry qualifies.
 */
module Selection {
  import opened Wrappers
  import opened Json

  /** `task_output.get('taskType') == taskType and task_output.get('output')`. */
  predicate Matches(entry: Value, taskType: string)
    requires entry.Obj?
  {
    Get(entry, "taskType") == Some(Str(taskType)) && Truthy(GetOr(entry, "output", Null))
  }

  /**
   * `task_output['output'][0].get(field, '')` on a matching entry. Only a
   * non-empty list whose first item is an object gets that far; any other
   * truthy `output` makes the indexing or the `.get` raise.
   */
  function OutputField(entry: Value, field: string): Result<Value, Error>
    requires entry.Obj?
  {
    var output := GetOr(entry, "output", Null);
    if output.Arr? && output.items != [] && output.items[0].Obj?
    then Ok(GetOr(output.items[0], field, Str("")))
    else Err(Malformed)
  }

  /** The scan over the entries `entries`, raising `message` when it runs off the end. */
  function Select(entries: seq<Value>, taskType: string, field: string, message: string): Result<Value, Error> {
    if entries == [] then Err(Raised(message))
    else if !entries[0].Obj? then Err(Malformed)
    else if Matches(entries[0], taskType) then OutputField(entries[0], field)
    else Select(entries[1..], taskType, field, message)
  }

  /** The whole selection step on a decoded response. */
  function SelectFromResponse(response: Value, taskType: string, field: string, message: string): Result<Value, Error> {
    if !response.Obj? then Err(Malformed)
    else match Iterable(GetOr(response, "pipelineResponse", Arr([])))
      case None => Err(Malformed)
      case Some(entries) => Select(entries, taskType, field, message)
  }

  /** The selection loop as the task functions run it. */
  method SelectOutput(response: Value, taskType: string, field: string, message: string) returns (r: Result<Value, Error>)
    ensures r == SelectFromResponse(response, taskType, field, message)
  {
    if !response.Obj? {
      return Err(Malformed);
    }
    var listed := Iterable(GetOr(response, "pipelineResponse", Arr([])));
    if listed.None? {
      return Err(Malformed);
    }
    var entries := listed.value;
    var i := 0;
    while i < |entries|
      invariant 0 <= i <= |entries|
      invariant Select(entries[i..], taskType, field, message) == Select(entries, taskType, field, message)
    {
      var entry := entries[i];
      if !entry.Obj? {
        return Err(Malformed);
      }
      if Get(entry, "taskType") == Some(Str(taskType)) && Truthy(GetOr(entry, "output", Null)) {
        var output := GetOr(entry, "output", Null);
        if output.Arr? && output.items[0].Obj? {
          return Ok(GetOr(output.items[0], field, Str("")));
        }
        return Err(Malformed);
      }
      assert entries[i..][1..] == entries[i + 1..];
      i := i + 1;
    }
    return Err(Raised(message));
  }

  /** Entries before the first match are objects of another kind, or with an empty output. */
  predicate SkippedBefore(entries: seq<Value>, k: nat, taskType: string)
    requires k <= |entries|
  {
    forall j :: 0 <= j < k ==> entries[j].Obj? && !Matches(entries[j], taskType)
  }

  /** The first matching entry decides the result, whatever follows it. */
  lemma {:induction false} SelectFirstMatch(entries: seq<Value>, k: nat, taskType: string, field: string, message: string)
    requires k < |entries| && entries[k].Obj? && Matches(entries[k], taskType)
    requires SkippedBefore(entries, k, taskType)
    ensures Select(entries, taskType, field, message) == OutputField(entries[k], field)
  {
    if k > 0 {
      assert entries[0].Obj? && !Matches(entries[0], taskType);
      assert SkippedBefore(entries[1..], k - 1, taskType) by {
        forall j | 0 <= j < k - 1 ensures entries[1..][j] == entries[j + 1] { }
      }
      SelectFirstMatch(entries[1..], k - 1, taskType, field, message);
    }
  }

  /** With no matching entry the function raises its own message. */
  lemma {:induction false} SelectNoMatch(entries: seq<Value>, taskType: string, field: string, message: string)
    requires SkippedBefore(entries, |entries|, taskType)
    ensures Select(entries, taskType, field, message) == Err(Raised(message))
  {
    if entries != [] {
      assert SkippedBefore(entries[1..], |entries| - 1, taskType) by {
        forall j | 0 <= j < |entries| - 1 ensures entries[1..][j] == entries[j + 1] { }
      }
      SelectNoMatch(entries[1..], taskType, field, message);
    }
  }

  /** A result is only ever the output of a first match; a raised message only comes from finding none. */
  lemma {:induction false} SelectOutcome(entries: seq<Value>, taskType: string, field: string, message: string)
    ensures Select(entries, taskType, field, message).Ok? ==>
      exists k :: 0 <= k < |entries| && entries[k].Obj? && Matches(entries[k], taskType) &&
        SkippedBefore(entries, k, taskType) &&
        Select(entries, taskType, field, message) == OutputField(entries[k], field)
    ensures Select(entries, taskType, field, message) == Err(Raised(message)) ==>
      SkippedBefore(entries, |entries|, taskType)
  {
    if entries != [] && entries[0].Obj? && !Matches(entries[0], taskType) {
      var rest := entries[1..];
      SelectOutcome(rest, taskType, field, message);
      if Select(rest, taskType, field, message).Ok? {
        var k :| 0 <= k < |rest| && rest[k].Obj? && Matches(rest[k], taskType) &&
          SkippedBefore(rest, k, taskType) && Select(rest, taskType, field, message) == OutputField(rest[k], field);
        assert entries[k + 1] == rest[k];
        assert SkippedBefore(entries, k + 1, taskType) by {
          forall j | 0 < j < k + 1 ensures entries[j] == rest[j - 1] { }
        }
      }
      if Select(rest, taskType, field, message) == Err(Raised(message)) {
        forall j | 0 < j < |entries| ensures entries[j] == rest[j - 1] { }
      }
    }
    if entries != [] && entries[0].Obj? && Matches(entries[0], taskType) {
      assert SkippedBefore(entries, 0, taskType);
    }
  }

  /** Entries that do not match are ignored: prepending them changes nothing. */
  lemma {:induction false} SelectSkipsPrefix(prefix: seq<Value>, entries: seq<Value>, taskType: string, field: string, message: string)
    requires SkippedBefore(prefix, |prefix|, taskType)
    ensures Select(prefix + entries, taskType, field, message) == Select(entries, taskType, field, message)
  {
    if prefix != [] {
      assert (prefix + entries)[0] == prefix[0];
      assert (prefix + entries)[1..] == prefix[1..] + entries;
      assert SkippedBefore(prefix[1..], |prefix| - 1, taskType) by {
        forall j | 0 <= j < |prefix| - 1 ensures prefix[1..][j] == prefix[j + 1] { }
      }
      SelectSkipsPrefix(prefix[1..], entries, taskType, field, message);
    } else {
      assert prefix + entries == entries;
    }
  }

  /** A response without `pipelineResponse` raises the task's own message. */
  lemma MissingResponseRaises(response: Value, taskType: string, field: string, message: string)
    requires response.Obj? && "pipelineResponse" !in response.fields
    ensures SelectFromResponse(response, taskType, field, message) == Err(Raised(message))
  {
  }
}
