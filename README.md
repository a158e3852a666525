# Query submission and result table of the eskimo query console

eskimo is a browser console for data-access queries. The user types an
expression such as `user.findMany({ where: { active: true } })` into an editor
and submits it. The server evaluates it and answers with a JSON body, and the
page shows the rows as a table. This project models the two client-side parts
that hold logic, and proves what they promise:

- `QueryInterface` (`query_interface.dfy`). This is `handleSubmit` of the
  `QueryInterface` component, modelled as the class `Component`. Its fields are
  the state cells `query`, `results`, `error` and `isLoading`.
  - `Begin` is the part before the request: the blank-query check, then
    clearing the error and the rows and starting to load.
  - `Settle` is the part after the request: the ok branch with its
    null/array/other normalisation, the not-ok branch, the catch block and the
    finally block.
  - `HandleSubmit` runs the two in sequence.
  - `Settle` and `HandleSubmit` are proved against the pure functions
    `Settled` and `Submitted`, which use `Normalise` and `FailureMessage`. The
    properties are proved about those functions. `Begin` and `SetQuery` state
    their new state directly.
  - The request is not modelled. It is the input `Outcome`: an ok response
    with a body, a not-ok response with a body, or an exception.
- `ResultTable` (`result_table.dfy`). This is the `ResultTable` component as a
  pure function `Render`. Its result is one of three things:
  - the "No results found" notice;
  - a grid of a header row and body rows;
  - a TypeError thrown while rendering.

  The columns are `Object.keys(data[0] || {})`. Each body row has one cell per
  column, and each cell is `JSON.stringify(row[column])`. `JSON.stringify` is
  the parameter `stringify`.
- `JsValues` (`js_values.dfy`). This module holds the JSON values that
  `response.json()` produces, and the JavaScript semantics both components rely
  on:
  - falsiness;
  - `Object.keys`, including the index keys of arrays and strings;
  - the property read `v[k]`, which throws on `null`.

  An object keeps its members as they appear in the JSON text. As with
  `JSON.parse`, a repeated key is listed once, at its first position, and holds
  the value of its last occurrence.

Some points about what the code does and does not do:
- There is no query parser, entity registry or dispatcher. The server `eval`s
  the text.
- The columns come from the first row only, and rows are not reconciled.
- A not-ok response whose body is `null` throws when `data.error` is read. The
  catch block's message is shown for it, the one with the final period.
- The `error` state cell holds whatever the response's `error` field held. That
  value need not be a string, so the model's `error` is a JSON value.

## Model

| member | source | states |
|---|---|---|
| `JsValues.OwnKeys` | src/components/ResultTable.tsx:23 | `Object.keys` of a parsed object lists every key that occurs among its members, each key only once, ordered by the position of its first occurrence |
| `JsValues.IndexKeys` | src/components/ResultTable.tsx:23 | `Object.keys` of an array or string of length n is the n index keys "0".."n-1", all distinct |
| `JsValues.Keys` | src/components/ResultTable.tsx:23 | `Object.keys(v)` for a non-null value: the keys are distinct; an object's are exactly its member keys, in order of first occurrence; an array or string gives its index keys; a boolean or number gives none |
| `JsValues.LastValue` | src/components/ResultTable.tsx:48 | the value an object holds under a key is that of the key's last occurrence, and there is none exactly when the key does not occur |
| `JsValues.IndexOf` | src/components/ResultTable.tsx:48 | a key denotes an array index below n exactly when it is the decimal spelling of one |
| `JsValues.Get` | src/components/ResultTable.tsx:48 | `v[k]` throws exactly on null; it is defined for every key `Object.keys(v)` lists, and on an object only for those keys, with a value that is one of the object's members |
| `JsValues.GetIndex` | src/components/ResultTable.tsx:48 | reading an array at the key of index i gives its i-th element |
| `JsValues.GetMember` | src/components/ResultTable.tsx:48 | reading an object at a key gives the value of that key's last member |
| `JsValues.DecimalRoundTrip` | src/components/ResultTable.tsx:23 | the index key of n reads back as n, so distinct indices have distinct keys |
| `ResultTable.Columns` | src/components/ResultTable.tsx:23 | a falsy first element gives no columns; a truthy one gives exactly `Object.keys` of it, in that order (for an object: every member key, by first occurrence); columns are distinct (they are React keys) and each names a property the first element has |
| `ResultTable.CellByKind` | src/components/ResultTable.tsx:48 | by the kind of row: an object row shows `JSON.stringify` of the value of the column's last member, and nothing when it has no such member; an array or string row shows its element at an index key and its length at "length", and nothing for other keys; a boolean or number row shows nothing |
| `ResultTable.RowCells` | src/components/ResultTable.tsx:46-50 | a row has exactly one cell per column, in column order |
| `ResultTable.Render` | src/components/ResultTable.tsx:14-57 | non-array or empty data renders the notice and nothing else does; a table's header is the first element's columns; it has one body row per element and one cell per column in each row, whatever keys the row has; rendering throws exactly when a null element meets a non-empty column list |
| `ResultTable.ColumnsFromFirstOnly` | src/components/ResultTable.tsx:23 | two data lists with the same first element have the same header, whatever their later elements |
| `ResultTable.LaterKeysNeverColumns` | src/components/ResultTable.tsx:23 | a key the first element lacks never becomes a column, even when later rows have it |
| `ResultTable.FirstRowComplete` | src/components/ResultTable.tsx:46-50 | every cell of the first body row is present |
| `ResultTable.MissingColumnAbsent` | src/components/ResultTable.tsx:48 | a column that an object row lacks gives an absent cell in that row, whatever the first row holds |
| `ResultTable.ObjectCell` | src/components/ResultTable.tsx:48 | an object row shows, under a column it has, `JSON.stringify` of that key's value |
| `ResultTable.ArrayFirstRow` | src/components/ResultTable.tsx:23 | a non-empty array as first element gives the columns "0", "1", ... and its own row shows its elements in order |
| `QueryInterface.TrimStart` | src/components/QueryInterface.tsx:22 | the result is a suffix of the input; everything dropped is whitespace; the result does not start with whitespace |
| `QueryInterface.TrimEnd` | src/components/QueryInterface.tsx:22 | the result is a prefix of the input; everything dropped is whitespace; the result does not end with whitespace |
| `QueryInterface.BlankIffAllTrimmable` | src/components/QueryInterface.tsx:22 | a query is rejected as blank exactly when it is empty or every character is whitespace or a line terminator |
| `QueryInterface.Normalise` | src/components/QueryInterface.tsx:42-49 | the rows are empty exactly for a null body or an empty array; an array body yields exactly its elements in order; any other body yields one row holding it |
| `QueryInterface.NormaliseIdempotent` | src/components/QueryInterface.tsx:42-49 | normalising already normalised rows returns them unchanged |
| `QueryInterface.FailureMessage` | src/components/QueryInterface.tsx:53-58 | the failure message is always truthy, so the error banner at line 217 shows; a null body gives the catch block's message (with the period); an object body whose last `error` member is truthy gives that value; any other body gives the default without the period |
| `QueryInterface.Settled` | src/components/QueryInterface.tsx:31-61 | after the request loading has stopped; an error is set exactly when the response was not ok; an ok response sets the rows to the normalised body; a failure leaves the rows as they were |
| `QueryInterface.Submitted` | src/components/QueryInterface.tsx:19-62 | a blank query only sets "Query is required", leaving rows and loading alone; any other query ends with loading off, exactly one of rows and error set, and no rows on failure |
| `QueryInterface.OkSubmission` | src/components/QueryInterface.tsx:40-52 | an ok response shows the normalised body and no error |
| `QueryInterface.NotOkSubmission` | src/components/QueryInterface.tsx:53-55 | a not-ok response shows no rows, and shows the body's truthy `error` field or else the default message without a period; a null body shows the message with the period |
| `QueryInterface.ThrownSubmission` | src/components/QueryInterface.tsx:56-61 | a thrown request shows no rows and the message with the final period, which is the not-ok default plus "." |
| `QueryInterface.BlankKeepsRows` | src/components/QueryInterface.tsx:22-25 | a blank submission keeps the rows already shown, so both rows and error are set |
| `QueryInterface.SingleObjectShowsOneFullRow` | src/components/QueryInterface.tsx:218 | an ok response whose body is one object renders a table of exactly one row with every cell present |
| `QueryInterface.EmptyBodyShowsNotice` | src/components/QueryInterface.tsx:218 | an ok response with a null or empty-array body renders the "No results found" notice |
| `QueryInterface.Component.constructor` | src/components/QueryInterface.tsx:14-17 | the state starts with an empty query, no rows, no error and not loading |
| `QueryInterface.Component.SetQuery` | src/components/QueryInterface.tsx:231-233 | the editor's change handler stores the new text, or "" when there is none |
| `QueryInterface.Component.Begin` | src/components/QueryInterface.tsx:19-29 | a request is made exactly for a non-blank query; before it, error and rows are cleared and loading is on; a blank query sets only the error |
| `QueryInterface.Component.Settle` | src/components/QueryInterface.tsx:31-61 | the state after the request is `Settled` of the state before it |
| `QueryInterface.Component.HandleSubmit` | src/components/QueryInterface.tsx:19-62 | the state after a submission is `Submitted` of the state before it, and the request is made exactly for a non-blank query |

## Left out

- The request is not modelled. `fetch`, `response.json()` and `console.error` are I/O, so their result is the input `Outcome`.
- `src/app/api/execute-query/route.tsx` is not part of this model. It `eval`s the query text against a Prisma client. Its only check is `!query`, which lets whitespace-only text through.
- The model has no `undefined` JSON value. `response.json()` never produces one, so the model cannot reach the source's `data === undefined` test.
- Two submissions cannot overlap in the model. `handleSubmit` is asynchronous and the submit button's `disabled={isLoading}` is commented out, so a second submission can start before the first settles. The model runs each submission to completion.
- Browser events and rendering are not modelled: the keyboard shortcut effect (lines 64-74), React rendering and layout, the Monaco tokenizer, the keyword lists, the theme and the editor options.
- `JsValues.Get` does not model prototype properties. A key that is not an own property, an index or "length" reads as undefined. This matches the source for inherited methods, because `JSON.stringify` of a function is undefined too. It differs for `__proto__`.
- `JsValues.Keys` lists keys in member order. JavaScript lists integer-like object keys first, in ascending order, and the model does not.
- String index keys count Unicode scalar values, not UTF-16 code units.
- Numbers are integers. JavaScript floating point, `NaN` and `-0` are not modelled.
- `JSON.stringify` is the parameter `stringify`, so its formatting is not modelled.
