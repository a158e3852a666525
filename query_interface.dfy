/** The `QueryInterface` component's submission: the blank-query check, the
    state it sets before the request, the normalisation of a successful
    response body into rows, and the error it shows on failure. The request
    itself (`fetch` and `response.json()`) is the input `Outcome`. */
module QueryInterface {
  import opened JsValues
  import ResultTable

  /** How the request ended: a parsed body with `response.ok` true or false,
      or an exception from `fetch` or `response.json()`. */
  datatype Outcome =
    | Ok(body: Json)
    | NotOk(body: Json)
    | Thrown

  const QueryRequired: string := "Query is required"
  /** The not-ok response's default message: no final period. */
  const ServerFailed: string := "An error occurred while executing the query"
  /** The catch block's message: with a final period. */
  const RequestFailed: string := "An error occurred while executing the query."

  // ---------------------------------------------------------------------
  // String.prototype.trim and the blank-query test.

  /** The characters `trim` removes: ECMAScript WhiteSpace (tab, vertical tab,
      form feed, space, no-break space, byte order mark and the Unicode space
      separators) and LineTerminator. */
  predicate IsTrimmable(c: char) {
    c == '\t' || c == '\U{000B}' || c == '\U{000C}' || c == ' ' || c == '\U{00A0}' || c == '\U{FEFF}'
    || c == '\U{1680}' || ('\U{2000}' <= c <= '\U{200A}') || c == '\U{202F}' || c == '\U{205F}' || c == '\U{3000}'
    || c == '\n' || c == '\r' || c == '\U{2028}' || c == '\U{2029}'
  }

  /** `s` without its leading trimmable characters. */
  function TrimStart(s: string): (r: string)
    ensures |r| <= |s| && r == s[|s| - |r|..]
    ensures r != [] ==> !IsTrimmable(r[0])
    ensures forall i :: 0 <= i < |s| - |r| ==> IsTrimmable(s[i])
  {
    if s != [] && IsTrimmable(s[0]) then TrimStart(s[1..]) else s
  }

  /** `s` without its trailing trimmable characters. */
  function TrimEnd(s: string): (r: string)
    ensures |r| <= |s| && r == s[..|r|]
    ensures r != [] ==> !IsTrimmable(r[|r| - 1])
    ensures forall i :: |r| <= i < |s| ==> IsTrimmable(s[i])
  {
    if s != [] && IsTrimmable(s[|s| - 1]) then TrimEnd(s[..|s| - 1]) else s
  }

  function Trim(s: string): string {
    TrimEnd(TrimStart(s))
  }

  /** `!query?.trim()`: the trimmed query is the empty, falsy, string. */
  predicate Blank(query: string) {
    Trim(query) == []
  }

  /** A query is blank exactly when every character of it is whitespace or a
      line terminator; the empty query is blank. */
  lemma BlankIffAllTrimmable(query: string)
    ensures Blank(query) <==> forall i :: 0 <= i < |query| ==> IsTrimmable(query[i])
  {
    var t := TrimStart(query);
    if t != [] {
      assert t[0] == query[|query| - |t|];
    }
  }

  // ---------------------------------------------------------------------
  // The rows a successful response shows.

  /** The ok branch's case split: no body gives no rows, an array body gives
      its elements, any other body is one row. */
  function Normalise(body: Json): (rows: seq<Json>)
    ensures rows == [] <==> body == Null || body == Arr([])
    ensures body.Arr? ==> Arr(rows) == body
    ensures !body.Arr? && !body.Null? ==> rows == [body]
  {
    if body == Null then []
    else if body.Arr? then body.items
    else [body]
  }

  /** Normalising rows that are already a list returns them unchanged, so
      normalising twice is normalising once. */
  lemma NormaliseIdempotent(body: Json)
    ensures Normalise(Arr(Normalise(body))) == Normalise(body)
  {
  }

  // ---------------------------------------------------------------------
  // The component state and what one submission does to it.

  /** The state cells `handleSubmit` writes. `error` holds whatever the
      response's `error` field held, which need not be a string. */
  datatype State = State(results: Option<seq<Json>>, error: Option<Json>, isLoading: bool)

  /** The message the not-ok branch sets, or the catch block's message when
      reading `data.error` throws because the body is null. */
  function FailureMessage(body: Json): (m: Json)
    ensures !Falsy(m)
    ensures body.Null? ==> m == Str(RequestFailed)
    ensures body.Obj? && Get(body, "error").Defined? && !Falsy(Get(body, "error").value) ==>
              ("error", m) in body.members
    ensures m == Str(ServerFailed) || m == Str(RequestFailed) || (body.Obj? && ("error", m) in body.members)
    ensures !body.Null? && !body.Obj? ==> m == Str(ServerFailed)
    ensures body.Obj? ==> forall p :: IsLastWithKey(body.members, p, "error") && !Falsy(body.members[p].1) ==>
              m == body.members[p].1
    ensures body.Obj? && (forall p :: IsLastWithKey(body.members, p, "error") ==> Falsy(body.members[p].1)) ==>
              m == Str(ServerFailed)
  {
    var read := Get(body, "error");
    assert body.Obj? ==> forall p :: IsLastWithKey(body.members, p, "error") ==> read == Defined(body.members[p].1) by {
      if body.Obj? {
        forall p | IsLastWithKey(body.members, p, "error") ensures read == Defined(body.members[p].1) {
          GetMember(body.members, p);
        }
      }
    }
    assert body.Obj? && read.Defined? ==> exists p :: IsLastWithKey(body.members, p, "error") by {
      if body.Obj? && read.Defined? {
        var r := LastValue(body.members, "error");
        var p :| IsLastWithKey(body.members, p, "error") && body.members[p].1 == r.value;
      }
    }
    if read.TypeError? then Str(RequestFailed)
    else if read.Defined? && !Falsy(read.value) then read.value
    else Str(ServerFailed)
  }

  /** The state after the request has ended, from the state before it. */
  function Settled(st: State, outcome: Outcome): (after: State)
    ensures !after.isLoading
    ensures after.error.Some? <==> !outcome.Ok?
    ensures outcome.Ok? ==> after.results == Some(Normalise(outcome.body))
    ensures !outcome.Ok? ==> after.results == st.results
  {
    match outcome
    case Ok(body) => State(Some(Normalise(body)), None, false)
    case NotOk(body) => st.(error := Some(FailureMessage(body)), isLoading := false)
    case Thrown => st.(error := Some(Str(RequestFailed)), isLoading := false)
  }

  /** What one submission of `query` does, when the request would end with
      `outcome`. */
  function Submitted(st: State, query: string, outcome: Outcome): (after: State)
    ensures Blank(query) ==> after == st.(error := Some(Str(QueryRequired)))
    ensures !Blank(query) ==> !after.isLoading && (after.results.Some? <==> after.error.None?)
    ensures !Blank(query) && !outcome.Ok? ==> after.results == None
  {
    if Blank(query) then st.(error := Some(Str(QueryRequired)))
    else Settled(State(None, None, true), outcome)
  }

  /** A successful submission shows the normalised body and no error. */
  lemma OkSubmission(st: State, query: string, body: Json)
    requires !Blank(query)
    ensures Submitted(st, query, Ok(body)) == State(Some(Normalise(body)), None, false)
  {
  }

  /** A not-ok response shows the body's truthy `error` field, or the
      default message without a period; a null body throws on the read and
      shows the catch block's message with the period. No rows are shown. */
  lemma NotOkSubmission(st: State, query: string, body: Json)
    requires !Blank(query)
    ensures Submitted(st, query, NotOk(body)).results == None
    ensures body.Null? ==> Submitted(st, query, NotOk(body)).error == Some(Str(RequestFailed))
    ensures !body.Null? && Get(body, "error").Defined? && !Falsy(Get(body, "error").value) ==>
              Submitted(st, query, NotOk(body)).error == Some(Get(body, "error").value)
    ensures !body.Null? && !(Get(body, "error").Defined? && !Falsy(Get(body, "error").value)) ==>
              Submitted(st, query, NotOk(body)).error == Some(Str(ServerFailed))
  {
  }

  /** A request that throws shows the message with the period and no rows. */
  lemma ThrownSubmission(st: State, query: string)
    requires !Blank(query)
    ensures Submitted(st, query, Thrown) == State(None, Some(Str(RequestFailed)), false)
    ensures RequestFailed == ServerFailed + "."
  {
  }

  /** Unlike a submission that reaches the request, a blank one keeps the rows
      already shown next to its error. */
  lemma BlankKeepsRows(rows: seq<Json>, query: string, outcome: Outcome)
    requires Blank(query)
    ensures var after := Submitted(State(Some(rows), None, false), query, outcome);
            after.results == Some(rows) && after.error == Some(Str(QueryRequired))
  {
  }

  /** A successful response whose body is one object is shown as a table with
      exactly one row, every cell of which is present. */
  lemma SingleObjectShowsOneFullRow(st: State, query: string, members: seq<(string, Json)>, stringify: Json -> string)
    requires !Blank(query)
    ensures var rows := Submitted(st, query, Ok(Obj(members))).results.value;
            var v := ResultTable.Render(Arr(rows), stringify);
            v.Grid? && |v.body| == 1 &&
            forall j :: 0 <= j < |v.header| ==> v.body[0][j].Some?
  {
    var rows := Submitted(st, query, Ok(Obj(members))).results.value;
    assert rows == [Obj(members)];
    assert Null !in rows;
    var v := ResultTable.Render(Arr(rows), stringify);
    assert v.Grid? && |v.body| == 1;
    ResultTable.FirstRowComplete(rows, stringify);
  }

  /** A successful response with no body, or an empty array, shows the
      notice and no table. */
  lemma EmptyBodyShowsNotice(st: State, query: string, body: Json, stringify: Json -> string)
    requires !Blank(query)
    requires body == Null || body == Arr([])
    ensures ResultTable.Render(Arr(Submitted(st, query, Ok(body)).results.value), stringify).NoResults?
  {
  }

  // ---------------------------------------------------------------------
  // The component.

  /** The component's state cells, updated in place by `handleSubmit`. */
  class Component {
    var query: string
    var results: Option<seq<Json>>
    var error: Option<Json>
    var isLoading: bool

    function Snapshot(): State
      reads this
    {
      State(results, error, isLoading)
    }

    /** The initial values of the state cells. */
    constructor ()
      ensures query == "" && Snapshot() == State(None, None, false)
    {
      query := "";
      results := None;
      error := None;
      isLoading := false;
    }

    /** The editor's change handler: `setQuery(value || "")`. */
    method SetQuery(value: Option<string>)
      modifies this`query
      ensures query == if value.Some? then value.value else ""
    {
      query := if value.Some? then value.value else "";
    }

    /** The part of `handleSubmit` before the request: a blank query sets the
        error and stops; otherwise error and rows are cleared and loading
        starts. Returns whether the request is made. */
    method Begin() returns (requested: bool)
      modifies this`results, this`error, this`isLoading
      ensures requested <==> !Blank(query)
      ensures !requested ==> Snapshot() == old(Snapshot()).(error := Some(Str(QueryRequired)))
      ensures requested ==> Snapshot() == State(None, None, true)
    {
      var q := query;
      if Blank(q) {
        error := Some(Str(QueryRequired));
        assert query == q;
        return false;
      }
      error := None;
      results := None;
      isLoading := true;
      assert query == q;
      return true;
    }

    /** The part of `handleSubmit` after the request: the try block's two
        branches, the catch block and the finally block. */
    method Settle(outcome: Outcome)
      modifies this`results, this`error, this`isLoading
      ensures Snapshot() == Settled(old(Snapshot()), outcome)
    {
      match outcome {
        case Ok(body) =>
          results := Some(Normalise(body));
          error := None;
        case NotOk(body) =>
          var read := Get(body, "error");
          if read.TypeError? {
            // the read throws; the catch block runs
            error := Some(Str(RequestFailed));
          } else if read.Defined? && !Falsy(read.value) {
            error := Some(read.value);
          } else {
            error := Some(Str(ServerFailed));
          }
        case Thrown =>
          error := Some(Str(RequestFailed));
      }
      isLoading := false;
    }

    /** `handleSubmit`, with the request ending in `outcome` if it is made. */
    method HandleSubmit(outcome: Outcome) returns (requested: bool)
      modifies this`results, this`error, this`isLoading
      ensures requested <==> !Blank(query)
      ensures Snapshot() == Submitted(old(Snapshot()), query, outcome)
    {
      requested := Begin();
      if requested {
        Settle(outcome);
      }
    }
  }
}
