/**
 * The query reshaper: every record of the `queries` list of a loaded JSON
 * document is projected, in order, onto a task record with the keys
 * `task_id`, `spreadsheets`, `prompt` and `answer`.
 */
module Preprocessor {
  import opened Wrappers
  import opened Json

  /** The keys of every converted record. */
  const TaskKeys: set<string> := {"task_id", "spreadsheets", "prompt", "answer"}

  /**
   * What `for item in data.get("queries", [])` iterates over. A missing key
   * gives the empty list. A string is iterated character by character, a
   * non-empty object by its keys (strings, so the next `.get` fails), and
   * null, booleans and numbers are not iterable.
   */
  function QueryItems(data: Value): (r: Result<seq<Value>, Failure>)
    ensures !data.JObj? ==> r == Err(AttributeError)
    ensures data.JObj? && "queries" !in data.fields ==> r == Ok([])
    ensures data.JObj? && "queries" in data.fields && data.fields["queries"].JArr? ==>
              r == Ok(data.fields["queries"].items)
    ensures r.Err? ==> r.error in {AttributeError, TypeError}
  {
    if !data.JObj? then Err(AttributeError)
    else if "queries" !in data.fields then Ok([])
    else match data.fields["queries"]
      case JArr(items) => Ok(items)
      case JStr(s) => Ok(seq(|s|, i requires 0 <= i < |s| => JStr([s[i]])))
      case JObj(m) => if m == map[] then Ok([]) else Err(AttributeError)
      case _ => Err(TypeError)
  }

  /** The value stored under `spreadsheets` for a query whose `FileName` is `fileName`. */
  function Spreadsheets(fileName: Value): (v: Value)
    ensures v.JArr? && |v.items| <= 1
    ensures v.items == [fileName] <==> Truthy(fileName)
    ensures v.items == [] <==> !Truthy(fileName)
  {
    JArr(if Truthy(fileName) then [fileName] else [])
  }

  /** The task record built from one query record. */
  function Convert(item: map<string, Value>): (t: map<string, Value>)
    ensures t.Keys == TaskKeys
    ensures t["task_id"] == Get(item, "id")
    ensures t["spreadsheets"] == Spreadsheets(Get(item, "FileName"))
    ensures t["prompt"] == Get(item, "Question")
    ensures t["answer"] == Get(item, "FinalAnswer")
  {
    map[
      "task_id" := Get(item, "id"),
      "spreadsheets" := Spreadsheets(Get(item, "FileName")),
      "prompt" := Get(item, "Question"),
      "answer" := Get(item, "FinalAnswer")
    ]
  }

  /**
   * Converts every query in order. The first query that is not an object
   * aborts the conversion (`.get` on a non-dict).
   */
  method ConvertQueries(data: Value) returns (r: Result<seq<map<string, Value>>, Failure>)
    ensures QueryItems(data).Err? ==> r == Err(QueryItems(data).error)
    ensures QueryItems(data).Ok? ==>
              var items := QueryItems(data).value;
              && (r.Ok? <==> forall j :: 0 <= j < |items| ==> items[j].JObj?)
              && (r.Err? ==> r.error == AttributeError)
              && (r.Ok? ==> |r.value| == |items|
                            && forall j :: 0 <= j < |items| ==> r.value[j] == Convert(items[j].fields))
  {
    var queries := QueryItems(data);
    if queries.Err? {
      return Err(queries.error);
    }
    var items := queries.value;
    var outputList: seq<map<string, Value>> := [];
    for i := 0 to |items|
      invariant |outputList| == i
      invariant forall j :: 0 <= j < i ==> items[j].JObj? && outputList[j] == Convert(items[j].fields)
    {
      if !items[i].JObj? {
        return Err(AttributeError);
      }
      var converted := Convert(items[i].fields);
      outputList := outputList + [converted];
    }
    r := Ok(outputList);
  }

  /**
   * Reads the four source fields back out of a converted record (the
   * `FileName` from the first spreadsheet, if any).
   */
  function Restore(t: map<string, Value>): (item: map<string, Value>)
    requires TaskKeys <= t.Keys && t["spreadsheets"].JArr?
    ensures item.Keys == {"id", "FileName", "Question", "FinalAnswer"}
  {
    var sheets := t["spreadsheets"].items;
    map[
      "id" := t["task_id"],
      "FileName" := if sheets == [] then JNull else sheets[0],
      "Question" := t["prompt"],
      "FinalAnswer" := t["answer"]
    ]
  }

  /** A query whose four fields are present and whose file name is truthy. */
  ghost predicate WellFormedQuery(item: map<string, Value>)
  {
    && "id" in item
    && "FileName" in item && Truthy(item["FileName"])
    && "Question" in item
    && "FinalAnswer" in item
  }

  /** The projection loses nothing of a well-formed query's four fields. */
  lemma ConvertIsLossless(item: map<string, Value>)
    requires WellFormedQuery(item)
    ensures Restore(Convert(item)) == map k | k in item && k in {"id", "FileName", "Question", "FinalAnswer"} :: item[k]
  {
  }

  /** A missing or falsy file name is indistinguishable from an absent one after conversion. */
  lemma FalsyFileNameDropped(item: map<string, Value>)
    requires !Truthy(Get(item, "FileName"))
    ensures Convert(item)["spreadsheets"] == JArr([])
    ensures Convert(item) == Convert(item - {"FileName"})
  {
  }
}
