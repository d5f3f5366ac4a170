# label-to-fields: a Dafny model

The action sets the single-select fields of a GitHub issue's Project (v2) item from a CSV
mapping table. When a label is applied to an issue, the action works as follows:

1. It finds the first CSV row whose label column holds that label.
2. It takes every other column of that row as a project field name.
3. It finds the issue's item in the target project.
4. For each column whose cell is filled, it resolves the field and the cell's option by
   name and sends one `updateProjectV2ItemFieldValue` mutation.

An unknown field or option stops the run; the updates dispatched before it are not
taken back. An update counts here as dispatched when its mutation is started: nothing
in the code waits for it to be applied.

This project models that core of `index.js` and proves what each step does.

- `js.dfy` (module `Js`): the JavaScript semantics the code relies on. It covers values
  that may be `undefined`, string truthiness (`if (x)`), `Array.prototype.find` (returning
  the index found) and `Array.prototype.filter`.
- `csv.dfy` (module `Csv`): a parsed row is an ordered list of (column, value) cells. It
  covers cell lookup (`csvLine[field]`), row selection, the derivation of the project keys,
  and which keys have a filled cell.
- `project.dfy` (module `Project`): what the one read query returns and the lookups on
  it. These are `getFieldData`, `getProjectItemId`, `getFieldId` and `getOptionId`. Fields
  that are not single-select arrive as unnamed nodes (`OtherField`).
- `label_to_fields.dfy` (module `LabelToFields`): the run itself.
  - `Resolve` handles one column.
  - `Step` and `Plan` are the loop of `updateIssueFields` as functions.
  - `Run` is `main` as a function.
  - The class `GraphQLClient` keeps a log `issued` of the mutations sent.
  - The methods `UpdateIssueFields` (a `while` loop with an early return on error) and
    `RunAction` are proved to send exactly the updates `Plan` and `Run` list.
- `scenarios.dfy` (module `Scenarios`): worked runs on a three-row table and a
  three-field project.

How a run ends is an `Outcome`:

- `NoAction`: the label has no row.
- `Fail(error, issued)`: the run stopped with a `Failure` after sending `issued`.
- `Ok(updates)`: the run sent `updates`.

A `Failure` is one of:

- `NotAttached(issue, project)`: the issue has no item in the project.
- `UnknownField(field, project)`: no field resolves for a filled column.
- `UnknownOption(label, field, option)`: the field has no option with the cell's name.

JavaScript truthiness is modelled as written. A cell, item id, field id or option id that
is the empty string counts as missing, exactly as `!x` treats it.

Three points of the code's behaviour that the model keeps:

- The updates are dispatched in column order, so the model keeps them as a sequence in
  that order.
- The unknown-field error comes not only from a name no field has. It also comes from a
  field that exists but is not single-select, because the query gives such a field no
  name, and from a field whose id is empty.
- The errors thrown inside the un-awaited `updateIssueFields` never reach the `try/catch`
  in `main`. The model still reports them as a failed run (see "Left out").

In `Fail` and `Ok`, the `issued` and `updates` lists are the mutations dispatched, not
mutations known to have been applied.

## Model

| member | source | states |
|---|---|---|
| `Js.Find` | index.js:141 | `find` gives the first element that satisfies the predicate, and `undefined` exactly when no element does |
| `Js.Filter` | index.js:137 | `filter` keeps, in their original order, exactly the elements that satisfy the predicate, each as often as it occurs |
| `Csv.Columns` | index.js:228 | `Object.keys(csvLine)` has one key per cell, and a name is among the keys exactly when a lookup of that name finds a cell |
| `Csv.Lookup` | index.js:170 | `csvLine[field]` is the value of the first cell with that column, and `undefined` exactly when the row has no such column |
| `Csv.SelectRow` | index.js:224 | the selected row is the first row in file order whose label cell equals the label; there is none exactly when no row has the label |
| `Csv.ProjectKeys` | index.js:228 | the project keys are the row's columns in their original order; the label column is removed and no other column is dropped |
| `Csv.FilledColumns` | index.js:170-171 | the keys that go on to a lookup are exactly those whose cell is truthy, in key order |
| `Csv.FilledColumnsCount` | index.js:170-171 | a key with a truthy cell is kept as often as it occurs among the keys, and a key with an empty cell not at all |
| `Csv.PlanSize` | index.js:168-171 | with distinct columns including the label column, there are (columns − 1) keys and (columns − 1 − empty cells) filled ones |
| `Project.FieldData` | index.js:136-138 | the narrowed catalogue is exactly the single-select fields whose name is a project key, in catalogue order |
| `Project.ProjectItemId` | index.js:140-142 | the item id is that of the first item whose project id is the target's, and `undefined` exactly when there is none |
| `Project.FieldIndex` | index.js:149 | the field that `getOptionId` inspects is the first single-select field with that name, and is absent exactly when none has it |
| `Project.FieldId` | index.js:144-146 | the field id is that of the first single-select field with the name, and `undefined` exactly when none has it |
| `Project.OptionId` | index.js:148-151 | the option id is that of the first option with the name in the first field of that name, and `undefined` exactly when the field has none |
| `Project.FieldDataKeepsFirstMatch` | index.js:249 | for every project key, the narrowed catalogue has a field of that name exactly when the whole catalogue does, and its first one is the same field |
| `Project.FieldDataKeepsFieldId` | index.js:174 | resolving a project key's field id in the narrowed catalogue gives the id the whole catalogue gives |
| `Project.FieldDataKeepsOptionId` | index.js:180 | resolving an option id in the narrowed catalogue gives the id the whole catalogue gives |
| `LabelToFields.Resolve` | index.js:174-191 | a filled column fails with UnknownField (naming field and project number) exactly when no truthy field id resolves. It fails with UnknownOption (naming label, field and option) exactly when the field resolves but no truthy option id does. It resolves exactly when both ids are truthy, and then it is the one update of the item carrying both ids |
| `LabelToFields.Step` | index.js:168-192 | one iteration: once the walk has stopped, nothing changes; otherwise the updates dispatched so far are kept and at most one is added |
| `LabelToFields.Plan` | index.js:168-193 | the loop never ends in "no action"; what it dispatches and how it stops is stated by `PlanByColumn` |
| `LabelToFields.PlanFailPersists` | index.js:176-191 | once a column has thrown, the later columns change neither the outcome nor the updates sent |
| `LabelToFields.PlanByColumn` | index.js:168-193 | success sends exactly one update per filled key, in key order, each being what that key resolves to. Failure carries the failure of the first filled key that does not resolve, after exactly the updates of the filled keys before it |
| `LabelToFields.PlanOkIff` | index.js:168-193 | the walk succeeds if and only if every filled key resolves; the number of updates is then the number of keys minus the empty ones |
| `LabelToFields.EmptyCellsSkipped` | index.js:170-171 | empty cells take no part: walking only the filled keys gives the same outcome and the same updates |
| `LabelToFields.ResolveInFieldData` | index.js:249 | a project key resolves to the same update or failure against the narrowed catalogue as against the whole one |
| `LabelToFields.Run` | index.js:224-260 | the run takes no action if and only if no row of the table has the label |
| `LabelToFields.RunNotAttached` | index.js:244-247 | when the label has a row but the first item of the project has a falsy id (or there is none), the run fails naming issue and project numbers, before any update |
| `LabelToFields.RunByColumn` | index.js:228-254 | with a row selected and the item found, the outcome is the walk over the row's filled non-label columns, resolved against the project's whole catalogue |
| `LabelToFields.GraphQLClient.UpdateProjectField` | index.js:107-134 | one mutation appends exactly one (project, item, field, option) record to the log of updates sent |
| `LabelToFields.UpdateIssueFields` | index.js:163-194 | the loop sends exactly the updates `Plan` lists, in order, and returns the failure `Plan` ends with, if any |
| `LabelToFields.RunAction` | index.js:205-263 | `main`'s outcome is `Run`'s, and the client has sent exactly the updates that outcome lists |
| `Scenarios.BugSetsBothFields` | index.js:224-254 | with row `bug, Triage, High`, the run sends two updates in column order: Status→Triage, then Priority→High |
| `Scenarios.QuestionSkipsEmptyPriority` | index.js:170-171 | with row `question, Triage, ""`, the run sends the Status update only |
| `Scenarios.MisspeltOptionFails` | index.js:180-190 | an option name the field lacks fails the run with UnknownOption, and no update is sent |
| `Scenarios.AbsentLabelTakesNoAction` | index.js:258-260 | a label that no row has means no action |
| `Scenarios.UnattachedIssueFails` | index.js:244-247 | an issue with no item in the project fails the run with NotAttached, and no update is sent |

## Left out

- CSV reading and parsing (`readCSV`, index.js:153-161): file I/O and the csv-parse
  library, with its BOM, trim and empty-line options. The table is given already parsed.
- The GraphQL read query (`getProjectProperties`, index.js:62-105). It is a network call,
  and its result is the `ProjectProperties` input. The query fetches at most 100 project
  items and 100 fields, so anything beyond that is invisible to the action. The model
  takes whatever lists it is given.
- The mutation's network round trip (index.js:107-134). Sending an update is modelled as
  appending a record to `GraphQLClient.issued`. The mutation's own failures are not
  modelled.
- Authentication and client construction (`getGraphQLAppClient`, `getGraphQLTokenClient`
  and `getGraphQLClient`, index.js:35-60). They are SDK wrappers.
- Input gathering (index.js:8-32). This covers action inputs, the event payload, the
  repository split, `parseInt` of the issue and project numbers, and the issue link. The
  label column, label and numbers are given in `Inputs`.
- `getProjectId` (index.js:196-198) is the field selection `properties.project.id` inside
  `Run`. A project number that does not resolve makes the read query fail, which is
  outside the model.
- Logging, the job summary and process exit (`core.info`, `core.debug`, `core.summary`,
  `fail`, and the dev-mode override at index.js:266-274). They are output only.
- Error message text. A `Failure` carries the values each message names, not the wording.
- Promise scheduling (index.js:188, 253-257, 262). The mutations are not awaited. The
  error thrown inside the async `updateIssueFields` becomes a rejected promise that the
  surrounding `try/catch` cannot catch. `main` then starts the equally un-awaited summary
  write, and the unhandled rejection ends the process instead of `fail`. Neither the
  summary write nor mutations still in flight are then sure to complete. The model reports
  the error as a `Fail` outcome listing the mutations dispatched before it, and says
  nothing about which of them took effect.
- Key order for numeric column names. `Object.keys` lists integer-like keys first, in
  ascending order. The model keeps header order.
- Repeated column names. A JavaScript object keeps one key per name, and csv-parse with
  `columns: true` gives that key the value of the last cell under the repeated header.
  The model's row may repeat a column, and `Lookup` then reads the first cell. `PlanSize`
  assumes distinct columns, as a header-derived object has.
- Idempotence of applying the same updates twice. That is a property of the project's
  stored state, not of this code.
