# Todo list state and progress chart, modelled in Dafny

This project models the two pieces of logic in a small React todo client.

- **The todo list component** (`src/App.js`). It holds the fetched list `todos` and the input box's `newTodo`, called `draft` here. Four handlers change that state once their request settles:
  - the mount-time load replaces the list;
  - submit checks that the draft is not blank, posts it, appends the server's record and clears the draft;
  - toggle finds the record, sends it with `completed` negated, then flips every record with that id;
  - delete removes every record with that id.
- **The progress chart** (`src/components/ProgressChart.js`). A `reduce` counts records per `status`. The three chart values are read out in the fixed order pending, in progress, completed. The tooltip shows each value with its percentage of the total.

Files:

- `todo_list.dfy`, module `TodoList`. The list operations are pure functions: `Find`, `ToggleMatching`, `Without` and `Flip`. Around them is the class `TodoApp`, with the fields `todos: seq<Todo>` and `draft: string`. Its methods play the handlers. `Load`, `HandleSubmit`, `ToggleTodo` and `DeleteTodo` each take the network outcome as a parameter: the parsed server list or record, or whether the promise chain resolved. Each returns the request it sends, if any; `Load` always sends `GET /api/todos`. `Edit` takes the typed text and sends nothing.
- `progress_chart.dfy`, module `ProgressChart`. It has the fold (`Tally`, `StatusCounts`), the chart values (`ChartData`), the dataset sum (`Total`), the percentage and the tooltip text. A direct count, `Count`, is the reference that the fold is proved against.
- `js_string.dfy`, module `JsString`. It models `String.prototype.trim` using ECMAScript's whitespace and line-terminator code points. It also models the decimal rendering of a non-negative integer in a template literal, with its inverse `ParseDecimal`.
- `wrappers.dfy`, module `Wrappers`. It defines `Option`, for a promise that settled with a value and for a JavaScript value that may be missing.

The two record shapes are kept apart, as in the source. `App.js` reads `{id, title, completed}` with a boolean `completed`, which is `TodoList.Todo`. `ProgressChart.js` reads a `status` string, which is `ProgressChart.Task`. Ids are modelled as integers compared with `===`. The model does not assume ids are unique, so every property is stated per matching record.

Each callback runs against the list its handler saw. The model runs it at once, after the handler, in a single step.

## Model

| member | source | states |
|---|---|---|
| `JsString.IsWhitespace` | src/App.js:21 | The code points `trim` strips: ECMAScript's WhiteSpace and LineTerminator. It is a definition with no contract; `TrimStart`, `TrimEnd` and `Trim` state everything through it |
| `JsString.TrimStart` | src/App.js:21 | The result is a suffix of the input, only whitespace was dropped, and it does not start with whitespace |
| `JsString.TrimEnd` | src/App.js:21 | The result is a prefix of the input, only whitespace was dropped, and it does not end with whitespace |
| `JsString.Trim` | src/App.js:21 | `trim()` returns a slice `s[i..j]` of the draft, where everything before `i` and from `j` on is whitespace, and the slice neither starts nor ends with whitespace. It is empty exactly when every character of the draft is whitespace, which is when `!newTodo.trim()` rejects it |
| `TodoList.TodoApp.constructor` | src/App.js:7-8 | The list starts empty and the draft starts as `''` |
| `TodoList.TodoApp.Load` | src/App.js:11-16 | The request is always `GET /api/todos`. A fetched list replaces `todos` wholesale. A rejected fetch leaves `todos` unchanged. The draft is never touched |
| `TodoList.TodoApp.Edit` | src/App.js:84 | Typing sets the draft to the input's text and leaves the list alone |
| `TodoList.TodoApp.HandleSubmit` | src/App.js:19-39 | A draft whose trim is empty sends no request and changes nothing. Otherwise a POST is sent with the untrimmed draft as `title` and `completed: false`. A parsed response is appended as the last record, earlier records stay as they were, and the draft becomes `''`. A rejection leaves `todos` and the draft unchanged |
| `TodoList.Find` | src/App.js:43 | Returns nothing exactly when no record has the id. Otherwise it returns a record with that id at some index, and no earlier record has that id (the first match) |
| `TodoList.Flip` | src/App.js:51-54 | The PUT body is the found record with `completed` negated, and `id` and `title` copied |
| `TodoList.ToggleMatching` | src/App.js:58-60 | Length and order are kept. Each record with the id becomes its own `Flip`. Every other record is unchanged |
| `TodoList.ToggleTwice` | src/App.js:58-60 | Applying the toggle map twice with the same id gives back the original list |
| `TodoList.ToggleKeepsIds` | src/App.js:58-60 | After the map, a list has a record with a given id exactly when it had one before |
| `TodoList.TodoApp.ToggleTodo` | src/App.js:42-63 | A request is sent exactly when some record has the id. It is a PUT of `Flip` of the first match. A resolved response makes `todos` equal to the toggle map of the old list. An absent id or a rejection leaves `todos` unchanged. The draft is never touched |
| `TodoList.ToggleTwiceRestores` | src/App.js:42-63 | Two resolved toggles of the same id leave the list and the draft as they were |
| `TodoList.Without` | src/App.js:71 | No record with the id is left. Every record with a different id keeps its number of occurrences, and records with the id have none |
| `TodoList.WithoutIsSubsequence` | src/App.js:71 | The filter keeps order: its result is a subsequence of the old list. Together with `Without`'s counts, this makes the result exactly the ordered subsequence of records whose id differs |
| `TodoList.WithoutAbsent` | src/App.js:71 | Deleting an id that no record has leaves the list unchanged |
| `TodoList.WithoutIdempotent` | src/App.js:71 | Deleting the same id twice gives the same list as deleting it once |
| `TodoList.TodoApp.DeleteTodo` | src/App.js:66-74 | A DELETE for the id is always sent. Whenever the promise resolves, whatever the HTTP status, `todos` becomes the filtered list. A rejection leaves `todos` unchanged. The draft is never touched |
| `ProgressChart.Count` | src/components/ProgressChart.js:15-18 | The number of records with a given status is at most the number of records |
| `ProgressChart.Lookup` | src/components/ProgressChart.js:16 | Reading an accumulator entry with the `or 0` default: the entry if the key is present, else 0. Entries are never 0, so this matches JavaScript. No contract of its own; `Bump`, `Tally` and `StatusCounts` state everything through it |
| `ProgressChart.Bump` | src/components/ProgressChart.js:16-17 | One reduce step: the record's status becomes a key, its entry goes up by one, and every other entry is unchanged |
| `ProgressChart.Tally` | src/components/ProgressChart.js:15-18 | The left-to-right reduce over all records adds each status's number of occurrences to the accumulator's entry. The keys afterwards are exactly the starting keys plus the statuses that occur |
| `ProgressChart.StatusCounts` | src/components/ProgressChart.js:15-18 | `statusCounts` started from `{}`: the entry of every status `s`, read with a default of 0, is the number of records whose status is `s`. `s` is a key exactly when that number is positive |
| `ProgressChart.ChartData` | src/components/ProgressChart.js:21-28 | The chart data has three values: the counts of `pending`, `in_progress` and `completed`, in that order, with 0 for a status that never occurs |
| `ProgressChart.CountsPartition` | src/components/ProgressChart.js:15-28 | The three charted counts plus the count of other statuses equal the number of records |
| `ProgressChart.NoUncharted` | src/components/ProgressChart.js:15-28 | No record has another status exactly when every record's status is one of the three charted ones |
| `ProgressChart.ChartTotal` | src/components/ProgressChart.js:15-28 | The three chart values sum to at most the number of records. They sum to exactly that number if and only if every status is one of the three |
| `ProgressChart.CountConcat` | src/components/ProgressChart.js:15-18 | Counting over two concatenated lists gives the sum of the two counts |
| `ProgressChart.RemoveAt` | src/components/ProgressChart.js:15-18 | Removing one record removes one occurrence of it, and lowers its status's count by one |
| `ProgressChart.CountPermutation` | src/components/ProgressChart.js:15-18 | Two lists with the same records (the same multiset) have the same count for every status |
| `ProgressChart.StatusCountsPermutation` | src/components/ProgressChart.js:15-18 | Permuting the records gives the same `statusCounts` map |
| `ProgressChart.Percentage` | src/components/ProgressChart.js:57-58 | With a zero total the percentage is 0. Otherwise it is the integer nearest to 100·value/total, with halves rounded up. It lies in [0, 100] when the value is at most the total |
| `ProgressChart.Total` | src/components/ProgressChart.js:57 | The left-to-right sum of the dataset. No value in the dataset exceeds it |
| `ProgressChart.TooltipText` | src/components/ProgressChart.js:54-60 | The text is the label (`''` when missing), `": "`, a canonical decimal numeral whose value is the raw value (0 when missing), `" ("`, a canonical decimal numeral whose value is the percentage of the dataset total, and `"%)"` |
| `ProgressChart.SliceTooltip` | src/components/ProgressChart.js:21-28 | The tooltip of chart slice k reads: its label, `": "`, the count of that slice's status, `" ("`, the percentage, `"%)"`. That percentage lies in [0, 100], and it is 0 when the dataset total is 0 |
| `JsString.NatToString` | src/components/ProgressChart.js:59 | A number interpolated into the tooltip is rendered as a non-empty string of decimal digits with no leading zero |
| `JsString.ParseNatToString` | src/components/ProgressChart.js:59 | Reading the rendered digits back gives the number |
| `JsString.NatToStringInjective` | src/components/ProgressChart.js:59 | Different numbers are rendered as different strings |
| `JsString.DecimalCanonical` | src/components/ProgressChart.js:59 | Every canonical decimal numeral is the rendering of its own value. So a value has exactly one canonical numeral, and `TooltipText`'s contract fixes the text completely |

## Left out

- The network and I/O: `fetch`, the HTTP headers, `API_URL`, JSON parsing and `console.error` logging. Their outcomes are method parameters: the parsed record or list, or whether the promise chain resolved. A rejection anywhere in a chain, including a body that does not parse, is the same single outcome.
- The HTTP status of a response is never checked. So on create, any response body that parses is appended. On load, any parsed body replaces `todos`, even a JSON error object that is not a list; `todos.find` and `todos.map` would then fail on it. A delete applies on any response. The model takes the parsed create body to be a `Todo` and the parsed load body to be a list of `Todo`.
- Asynchrony and the stale-closure race: each callback uses the `todos` value from when its handler ran. The model runs each callback straight after its handler, so overlapping requests are not modelled.
- React hooks, JSX rendering, CSS classes, `ChartJS.register` and the chart options (legend, colours, fonts): these are UI and library calls. The label array `['Pending', 'In Progress', 'Completed']` is kept as `ProgressChart.Labels`.
- `ProgressChart.Percentage`: it uses integer round-half-up, `(200·value + total) / (2·total)`, in place of floating-point `Math.round((value / total) * 100)`. They agree when the float arithmetic is exact. A float quotient that lands just below or above a .5 boundary can round the other way.
- `ProgressChart.StatusCounts`: the accumulator is modelled as an empty map. In JavaScript, `{}` inherits from `Object.prototype`. A status string that names an inherited property, such as `toString` or `constructor`, reads a truthy non-number and gives a string instead of a count. The three charted statuses are not such names, so the chart values are unaffected.
- Statuses are modelled as strings. A record without a `status` (the key `undefined` in JavaScript) or with a non-string status is not modelled. Chart values and tooltip values are non-negative integers.
- Ids are modelled as integers. Loose JavaScript id types, such as `1` compared with `"1"` by `===`, are not modelled.
- Strings are sequences of Unicode scalar values, while JavaScript strings use UTF-16 code units. All the whitespace `trim` removes lies in the Basic Multilingual Plane, so blankness is unaffected.
- Features that do not appear in these two files are not modelled: categories, status and category filters, an error slot, and optimistic rollback.
