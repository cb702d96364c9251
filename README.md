# Student records: in-memory store and client helpers

A model of the demo student-records manager. The backend keeps every student record in one
module-level array that the HTTP handlers change in place: `POST /api/students` checks the
five business fields and appends a record numbered `length + 1`, `PUT /api/students/:id`
overwrites the five fields of the first record with that id, `DELETE /api/students/:id`
splices that record out, and `GET /api/students` returns the array as it is. Each handler
answers with a status code (201, 200, 400 or 404) and a JSON body. The browser client
escapes text for HTML, turns two scores into a letter grade, and checks the form's five
fields in a fixed order before it submits.

Files:

- `wrappers.dfy`: `Option`, for absent or null JSON fields and a route id that did not parse.
- `student_store.dfy` (module `StudentStore`): records, request fields, responses; the
  handlers as pure functions from the old array to a response and the new array
  (`CreateOp`, `UpdateOp`, `DeleteOp`, `ListOp`); the `findIndex` search as a loop
  (`FindIndex`) against its specification `IndexOf`; and the class `Store`, whose field
  `students` is the array and whose methods change it in place, each proved to behave as
  the corresponding function.
- `store_properties.dfy` (module `StoreProperties`): properties spanning several calls.
- `client.dfy` (module `Client`): `EscapeHtml`, `CalcGrade`, and the submit handler's
  payload construction and ordered checks.

What the code does and does not guarantee:

- Ids are not unique. A create numbers its record `length + 1`, so a create after a delete
  can reuse an id still in the array (`IdsCanCollide` exhibits it). Update and delete then
  act on the first record with that id.
- The update handler checks no field. It never answers 400 and writes absent values as given.
- Listing returns the array in insertion order. It has no search, no filter and no
  ordering by creation time.
- There is no get-by-id route. Lookup is modelled by `IndexOf`, the same search the
  update and delete handlers run.
- The seed record has no `created_at`, so `createdAt` is optional.

## Model

| member | source | states |
|---|---|---|
| `StudentStore.IndexOf` | server.js:69 | -1 exactly when no record has the id; otherwise the position of a record with the id, with no match before it |
| `StudentStore.FindIndex` | server.js:92 | the linear search returns exactly `IndexOf`: the first match or -1 |
| `StudentStore.ListOp` | server.js:29-32 | status 200 and a body holding every stored record, in stored order, unfiltered |
| `StudentStore.CreateOp` | server.js:38-57 | 400 exactly when name or gender is absent or empty or age, midterm or final is absent (0 is accepted), and then the array is unchanged; otherwise one record is appended after the untouched old array, with id old length + 1, the five given fields and the timestamp, and it is returned with 201 |
| `StudentStore.UpdateOp` | server.js:64-82 | the status is only ever 200 or 404; 404 exactly when no record has the id, and then nothing changes; otherwise only the first match changes: its five fields become the given ones, its id and creation time stay, every other position and the length stay, and the updated record is returned |
| `StudentStore.DeleteOp` | server.js:89-99 | 404 exactly when no record has the id, with the array unchanged; otherwise the first match is removed: the length drops by one, the records before and after it keep their order, the removed record is the only one gone, and the body is `{success: true}` |
| `StudentStore.Store.constructor` | server.js:15-17 | the array starts as the one seed record |
| `StudentStore.Store.List` | server.js:29-32 | answers what `ListOp` gives for the current array and changes nothing |
| `StudentStore.Store.Create` | server.js:38-57 | the response and the new array are those `CreateOp` gives for the old array |
| `StudentStore.Store.Update` | server.js:64-82 | the response and the new array are those `UpdateOp` gives for the old array |
| `StudentStore.Store.Delete` | server.js:89-99 | the response and the new array are those `DeleteOp` gives for the old array |
| `StoreProperties.UpdateKeepsLookup` | server.js:74-81 | after an update, a lookup of any id finds the same position as before |
| `StoreProperties.DeleteRemovesOneMatch` | server.js:98 | a successful delete lowers the number of records with that id by exactly one, and the count for another id only when the removed record has it |
| `StoreProperties.DeleteTwiceNotFound` | server.js:92-99 | when exactly one record has the id, the first delete succeeds and a second delete answers 404 |
| `StoreProperties.CreatedIsFound` | server.js:46-57 | when no record already has id length + 1, a lookup of the returned id finds the created record at the end |
| `StoreProperties.IdsCanCollide` | server.js:47 | from the seed array, create, delete id 1, create: two records have id 2, and an update of id 2 leaves the second one alone |
| `StoreProperties.CreateUpdateDeleteScenario` | server.js:38-99 | from the seed array: create answers 201 with id 2, an update of the age answers 200 keeping id and creation time, delete answers 200 and restores the seed array, a second delete answers 404 |
| `Client.ReplaceAll` | script.js:49-53 | a global replace removes the replaced character when the replacement lacks it, is the identity when the character is absent, and never shortens the text when the replacement is non-empty |
| `Client.EscapeHtml` | script.js:47-54 | the escaped text is never shorter than the input |
| `Client.EscapeHtmlIsPerCharacter` | script.js:48-53 | because `&` is replaced first, the chain of replacements equals escaping each character independently |
| `Client.EscapeHtmlRoundTrip` | script.js:47-54 | decoding the five entities in the escaped text gives the input back: no entity is escaped twice |
| `Client.EscapeHtmlNoMarkup` | script.js:47-54 | the escaped text contains no `<`, `>`, `"` or `'` |
| `Client.EscapeHtmlPlainText` | script.js:47-54 | text with none of `& < > " '` comes back unchanged |
| `Client.GradeFor` | script.js:60-64 | A exactly at average 90 or above, B in [80, 90), C in [70, 80), D in [60, 70), F below 60 |
| `Client.CalcGrade` | script.js:56-65 | "N/A" exactly when a score is null, undefined, empty or not a number; otherwise the grade of the mean of the two scores |
| `Client.GradeMonotone` | script.js:60-64 | a higher average never gives a worse grade |
| `Client.CalcGradeMonotone` | script.js:58-64 | raising either score never lowers the grade |
| `Client.Trim` | script.js:136 | the result is a slice of the input with only whitespace before and after it; it is empty exactly when the text is all whitespace, and otherwise neither starts nor ends with whitespace |
| `Client.BuildPayload` | script.js:135-141 | the name is present exactly when its input exists and is not all whitespace; the gender exactly when its input exists and is non-empty; age, midterm and final exactly when their input exists and its text is non-empty |
| `Client.NumberField` | script.js:137-141 | a number field is null exactly when its element is missing or its text is empty |
| `Client.Validate` | script.js:144-163 | submits exactly when all five fields are present; otherwise reports a missing field all of whose predecessors in the order name, age, gender, midterm, final are present |
| `Client.WhitespaceNameRejected` | script.js:136-146 | a whitespace-only name is reported as the missing field |
| `Client.MessageNamesField` | script.js:144-162 | two alerts have the same text exactly when they report the same field |
| `Client.ZeroIsPresent` | script.js:137-151 | "0" in a number field becomes 0 and passes that field's check |

## Left out

- Express setup, CORS and JSON middleware, static files, the `/` route and `app.listen`: framework plumbing.
- The health endpoint: it returns a constant object.
- The 500 branches of the handlers: no operation of the model throws.
- The clock: the creation timestamp is a parameter.
- `parseInt` on the route id: the id is an `Option<int>`, where `None` stands for NaN and matches no record.
- JavaScript truthiness of arbitrary values: name and gender are optional strings (falsy when absent or empty), age an optional integer, the scores optional reals; a body field of another JSON type is not modelled.
- Floating point: scores and averages are exact reals. NaN shows only as the `NotANumber` score, and infinities are not modelled.
- `CalcGrade`: `Number()` is not modelled. Its input is classified already as null or undefined, empty text, a number or NaN.
- `ToNumber`: `Number()` on the form's text is exact only for a run of decimal digits. Any other text is kept as opaque text, which is still not null and so still passes the null check.
- `EscapeHtml`: its default argument and `String()` conversion of non-string values are not modelled. The input is a string.
- The DOM, theme toggle, local storage, alerts and confirmations, the `fetch` wrapper, the footer year and the API status probe: UI and network I/O. The alert text for each missing field is `Client.Message`; the alert itself is not modelled.
- Strings are sequences of Unicode scalar values, not UTF-16 code units: a lone surrogate cannot be represented and lengths count code points. The five replaced characters and every whitespace character `trim` removes lie in the Basic Multilingual Plane, so the replacements and trimming are unaffected.
- Search, case-insensitive matching, ordering by creation time and unique ids: the code implements none of these, and ids are not unique.
