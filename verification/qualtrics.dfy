/**
 * build/lib/squidtools/qualtrics.py: `get_records`, which flattens a
 * Qualtrics survey export into one record per response: the response's
 * id together with its answered values.
 */
module Qualtrics {
  import opened Wrappers
  import opened Json

  /** What `get_records` can raise. */
  datatype RecordsError =
    | AssertionError        // the export has no 'responses' key
    | KeyError(key: string) // a response without 'responseId' or 'values'
    | TypeError             // a value of the wrong shape: not iterable, not subscriptable by a string, or not a dict
    | ValueError            // `dict.update` given an item that is not a key-value pair

  /**
   * What `for r in responses` visits: a list's items, a string's characters;
   * a dict yields its keys, strings that the loop then fails to subscript.
   */
  function Iterate(v: Value): Result<seq<Value>, RecordsError> {
    match v
    case List(items) => Success(items)
    case Str(s) => Success(seq(|s|, i requires 0 <= i < |s| => Str([s[i]])))
    case Dict(fields) => if fields == map[] then Success([]) else Failure(TypeError)
    case _ => Failure(TypeError)
  }

  /**
   * `record.update(values)`: a dict's entries are merged in; anything else
   * is read as a sequence of key-value pairs, so an empty string or list
   * adds nothing, the one-character items of a non-empty string are not
   * pairs, and a number, boolean or null is not iterable.
   */
  function Update(record: Record, values: Value): Result<Record, RecordsError> {
    match values
    case Dict(fields) => Success(record + fields)
    case Str(s) => if s == "" then Success(record) else Failure(ValueError)
    case List(items) => if items == [] then Success(record) else Failure(TypeError)
    case _ => Failure(TypeError)
  }

  /** A value `dict.update` accepts without adding anything. */
  predicate NoPairs(v: Value) {
    v == Str("") || v == List([])
  }

  /** The record one response becomes: `{'responseId': r['responseId']}` updated with `r['values']`. */
  function Flatten(r: Value): Result<Record, RecordsError> {
    if !r.Dict? then Failure(TypeError)
    else if "responseId" !in r.fields then Failure(KeyError("responseId"))
    else if "values" !in r.fields then Failure(KeyError("values"))
    else Update(map["responseId" := r.fields["responseId"]], r.fields["values"])
  }

  /**
   * A response flattens exactly when it is a dict holding 'responseId' and
   * 'values' that are a dict, an empty string or an empty list; non-empty
   * string values raise ValueError. From dict values, the record's keys are
   * 'responseId' and the value keys; each value key maps to its value, and
   * 'responseId' maps to the response's id unless the values carry their
   * own, which wins. Otherwise the record holds the id alone.
   */
  lemma FlattenSpec(r: Value)
    ensures Flatten(r).Success? <==>
              r.Dict? && "responseId" in r.fields && "values" in r.fields &&
              (r.fields["values"].Dict? || NoPairs(r.fields["values"]))
    ensures Flatten(r) == Failure(ValueError) <==>
              r.Dict? && "responseId" in r.fields && "values" in r.fields &&
              r.fields["values"].Str? && r.fields["values"].s != ""
    ensures Flatten(r).Success? && r.fields["values"].Dict? ==>
              var rec := Flatten(r).value;
              var values := r.fields["values"].fields;
              && rec.Keys == {"responseId"} + values.Keys
              && (forall k :: k in values ==> rec[k] == values[k])
              && rec["responseId"] == (if "responseId" in values then values["responseId"] else r.fields["responseId"])
    ensures Flatten(r).Success? && !r.fields["values"].Dict? ==>
              Flatten(r).value == map["responseId" := r.fields["responseId"]]
  {
  }

  /**
   * `get_records(qualtrics_responses)`: assert the 'responses' key, then
   * build and append one record per response, in order.
   */
  method GetRecords(survey: Record) returns (res: Result<seq<Record>, RecordsError>)
    ensures "responses" !in survey ==> res == Failure(AssertionError)
    ensures "responses" in survey && Iterate(survey["responses"]).Failure? ==> res == Failure(TypeError)
    ensures "responses" in survey && Iterate(survey["responses"]).Success? ==>
              var items := Iterate(survey["responses"]).value;
              && (res.Success? <==> forall i :: 0 <= i < |items| ==> Flatten(items[i]).Success?)
              && (res.Success? ==> |res.value| == |items| &&
                                   forall i :: 0 <= i < |items| ==> Flatten(items[i]) == Success(res.value[i]))
              && (res.Failure? ==> exists i :: 0 <= i < |items| && Flatten(items[i]) == Failure(res.error) &&
                                                forall j :: 0 <= j < i ==> Flatten(items[j]).Success?)
  {
    if "responses" !in survey {
      return Failure(AssertionError);
    }
    var responses := Iterate(survey["responses"]);
    if responses.Failure? {
      return Failure(responses.error);
    }
    var items := responses.value;
    var records: seq<Record> := [];
    var i := 0;
    while i < |items|
      invariant 0 <= i <= |items| && |records| == i
      invariant forall j :: 0 <= j < i ==> Flatten(items[j]) == Success(records[j])
    {
      var r := items[i];
      if !r.Dict? {
        return Failure(TypeError);
      }
      if "responseId" !in r.fields {
        return Failure(KeyError("responseId"));
      }
      var record: Record := map["responseId" := r.fields["responseId"]];
      if "values" !in r.fields {
        return Failure(KeyError("values"));
      }
      var values := r.fields["values"];
      match values {
        case Dict(fields) =>
          record := record + fields;
        case Str(text) =>
          if text != "" {
            return Failure(ValueError);
          }
        case List(pairs) =>
          if pairs != [] {
            return Failure(TypeError);
          }
        case _ =>
          return Failure(TypeError);
      }
      records := records + [record];
      i := i + 1;
    }
    return Success(records);
  }
}
