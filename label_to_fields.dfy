/**
 * The run of the action (index.js, `main` and `updateIssueFields`): select the CSV row
 * of the triggering label, derive the project keys, find the issue's item in the
 * target project, then walk the keys and set one single-select field per filled cell.
 *
 * The GraphQL mutation is modelled as appending an `Update` record to the client's
 * log of issued updates. `Plan` and `Run` say, as functions, which updates a run
 * issues and how it ends; the methods `UpdateIssueFields` and `RunAction` do it step
 * by step and are proved to agree with them.
 */
module LabelToFields {
  import opened Js
  import opened Csv
  import opened Project

  /** One `updateProjectV2ItemFieldValue` mutation: set `fieldId` of the item to `optionId`. */
  datatype Update = Update(projectId: string, itemId: string, fieldId: string, optionId: string)

  /** The conditions that end a run with an error, with the values its message names. */
  datatype Failure =
    | NotAttached(issueNumber: int, projectNumber: int)
    | UnknownField(field: string, projectNumber: int)
    | UnknownOption(labelName: string, field: string, option: string)

  /**
   * How a run ends: the label has no row (no action), an error after the listed
   * updates were issued, or success with the listed updates issued.
   */
  datatype Outcome =
    | NoAction
    | Fail(error: Failure, issued: seq<Update>)
    | Ok(updates: seq<Update>)

  /** The updates a run with this outcome has issued. */
  function Issued(o: Outcome): seq<Update> {
    match o
    case NoAction => []
    case Fail(_, issued) => issued
    case Ok(updates) => updates
  }

  /** The action's inputs that the core reads: label column, label, issue and project numbers. */
  datatype Inputs = Inputs(labelHeader: string, labelName: string, issueNumber: int, projectNumber: int)

  /** What `updateIssueFields` is given besides the row and keys: where to write, and what to report. */
  datatype Target = Target(projectId: string, itemId: string, labelName: string, projectNumber: int)

  /** A filled column either resolves to an update or stops the run. */
  datatype Resolution = Resolved(update: Update) | Unresolved(failure: Failure)

  /**
   * One filled column of `updateIssueFields`: the field must resolve to a non-empty
   * id, else the run stops naming the field and the project number; the option must
   * then resolve to a non-empty id within that field, else the run stops naming the
   * label, the field and the option; otherwise the update targets the first field
   * and the first option of those names.
   */
  function Resolve(fields: seq<FieldNode>, field: string, option: string, t: Target): (r: Resolution)
    ensures r == Unresolved(UnknownField(field, t.projectNumber)) <==> !Truthy(FieldId(fields, field))
    ensures r == Unresolved(UnknownOption(t.labelName, field, option)) <==>
              Truthy(FieldId(fields, field)) && !Truthy(OptionId(fields, field, option))
    ensures r.Resolved? <==> Truthy(FieldId(fields, field)) && Truthy(OptionId(fields, field, option))
    ensures r.Resolved? ==>
              r.update == Update(t.projectId, t.itemId, FieldId(fields, field).value, OptionId(fields, field, option).value)
  {
    var fieldId := FieldId(fields, field);
    if !Truthy(fieldId) then Unresolved(UnknownField(field, t.projectNumber))
    else
      var fieldOptionId := OptionId(fields, field, option);
      if Truthy(fieldId) && Truthy(fieldOptionId) then
        Resolved(Update(t.projectId, t.itemId, fieldId.value, fieldOptionId.value))
      else Unresolved(UnknownOption(t.labelName, field, option))
  }

  /** The value `csvLine[field]` of a filled cell. */
  function CellText(row: Row, field: string): string {
    match Lookup(row, field)
    case Some(v) => v
    case None => ""
  }

  /** What the filled column `field` of the row resolves to. */
  function ColumnResult(fields: seq<FieldNode>, row: Row, field: string, t: Target): Resolution {
    Resolve(fields, field, CellText(row, field), t)
  }

  /**
   * One iteration of the loop of `updateIssueFields`, for the key `field`, after the
   * earlier keys led to `prev`: once stopped, nothing more happens; an empty cell is
   * skipped; a filled one either adds its update or stops with its failure, keeping
   * the updates issued before it.
   */
  function Step(fields: seq<FieldNode>, row: Row, prev: Outcome, field: string, t: Target): (r: Outcome)
    ensures !prev.Ok? ==> r == prev
    ensures Issued(prev) <= Issued(r) && |Issued(r)| <= |Issued(prev)| + 1
  {
    if !prev.Ok? || !Truthy(Lookup(row, field)) then prev
    else match ColumnResult(fields, row, field, t)
      case Resolved(u) => Ok(prev.updates + [u])
      case Unresolved(f) => Fail(f, prev.updates)
  }

  /** The whole loop of `updateIssueFields` over `keys`, as a function. */
  function Plan(fields: seq<FieldNode>, row: Row, keys: seq<string>, t: Target): (r: Outcome)
    ensures !r.NoAction?
    decreases |keys|
  {
    if keys == [] then Ok([])
    else Step(fields, row, Plan(fields, row, keys[..|keys| - 1], t), keys[|keys| - 1], t)
  }

  /** Walking one more key is one more step. */
  lemma PlanSnoc(fields: seq<FieldNode>, row: Row, keys: seq<string>, k: string, t: Target)
    ensures Plan(fields, row, keys + [k], t) == Step(fields, row, Plan(fields, row, keys, t), k, t)
  {
    assert (keys + [k])[..|keys|] == keys;
  }

  /** Once a prefix of the keys has failed, the later keys change nothing. */
  lemma {:induction false} PlanFailPersists(fields: seq<FieldNode>, row: Row, keys: seq<string>, n: nat, t: Target)
    requires n <= |keys|
    requires Plan(fields, row, keys[..n], t).Fail?
    ensures Plan(fields, row, keys, t) == Plan(fields, row, keys[..n], t)
    decreases |keys|
  {
    if n < |keys| {
      var init := keys[..|keys| - 1];
      assert init[..n] == keys[..n];
      PlanFailPersists(fields, row, init, n, t);
    } else {
      assert keys[..n] == keys;
    }
  }

  /** `FilledColumns` of one more key. */
  lemma FilledColumnsSnoc(row: Row, keys: seq<string>, k: string)
    ensures FilledColumns(row, keys + [k]) ==
              FilledColumns(row, keys) + (if Truthy(Lookup(row, k)) then [k] else [])
  {
    var all := keys + [k];
    assert all[..|all| - 1] == keys;
  }

  /** The first `|us|` of the columns `cols` resolve, in order, to the updates `us`. */
  ghost predicate ResolvedAs(fields: seq<FieldNode>, row: Row, cols: seq<string>, t: Target, us: seq<Update>) {
    |us| <= |cols| && forall i :: 0 <= i < |us| ==> ColumnResult(fields, row, cols[i], t) == Resolved(us[i])
  }

  /**
   * `o` is the outcome of taking the filled columns `filled` in order: success issues
   * exactly one update per filled column, the i-th being what the i-th column resolves
   * to; failure carries the failure of the first column that does not resolve and
   * exactly the updates of the columns before it.
   */
  ghost predicate WalkedAs(fields: seq<FieldNode>, row: Row, filled: seq<string>, t: Target, o: Outcome) {
    match o
    case Ok(us) => |us| == |filled| && ResolvedAs(fields, row, filled, t, us)
    case Fail(f, us) =>
      && |us| < |filled| && ResolvedAs(fields, row, filled, t, us)
      && ColumnResult(fields, row, filled[|us|], t) == Unresolved(f)
    case NoAction => false
  }

  /** A walk that has stopped stays described by `WalkedAs` when more filled columns follow. */
  lemma WalkedAsStopped(fields: seq<FieldNode>, row: Row, before: seq<string>, more: seq<string>, t: Target, o: Outcome)
    requires o.Fail? && WalkedAs(fields, row, before, t, o)
    ensures WalkedAs(fields, row, before + more, t, o)
  {
    var filled := before + more;
    assert forall i :: 0 <= i < |before| ==> filled[i] == before[i];
  }

  /** A walk that has succeeded so far, extended by one filled column that resolves. */
  lemma WalkedAsResolved(fields: seq<FieldNode>, row: Row, before: seq<string>, k: string, t: Target, us: seq<Update>, u: Update)
    requires WalkedAs(fields, row, before, t, Ok(us))
    requires ColumnResult(fields, row, k, t) == Resolved(u)
    ensures WalkedAs(fields, row, before + [k], t, Ok(us + [u]))
  {
    var filled, vs := before + [k], us + [u];
    assert forall i :: 0 <= i < |before| ==> filled[i] == before[i] && vs[i] == us[i];
    assert filled[|before|] == k && vs[|us|] == u;
  }

  /** A walk that has succeeded so far, stopped by one filled column that does not resolve. */
  lemma WalkedAsUnresolved(fields: seq<FieldNode>, row: Row, before: seq<string>, k: string, t: Target, us: seq<Update>, f: Failure)
    requires WalkedAs(fields, row, before, t, Ok(us))
    requires ColumnResult(fields, row, k, t) == Unresolved(f)
    ensures WalkedAs(fields, row, before + [k], t, Fail(f, us))
  {
    var filled := before + [k];
    assert forall i :: 0 <= i < |before| ==> filled[i] == before[i];
    assert filled[|before|] == k;
  }

  /** When every filled column resolves, the only walk `WalkedAs` admits is the success with their updates. */
  lemma WalkedAsAllResolved(fields: seq<FieldNode>, row: Row, filled: seq<string>, t: Target, o: Outcome, us: seq<Update>)
    requires WalkedAs(fields, row, filled, t, o)
    requires |us| == |filled| && ResolvedAs(fields, row, filled, t, us)
    ensures o == Ok(us)
  {
    if o.Ok? {
      assert forall i :: 0 <= i < |us| ==> Resolved(o.updates[i]) == Resolved(us[i]);
    }
  }

  /**
   * The walk over the keys is the walk over the filled ones, column by column, as
   * `WalkedAs` spells out.
   */
  lemma {:induction false} PlanByColumn(fields: seq<FieldNode>, row: Row, keys: seq<string>, t: Target)
    ensures WalkedAs(fields, row, FilledColumns(row, keys), t, Plan(fields, row, keys, t))
    decreases |keys|
  {
    if keys != [] {
      var init, k := keys[..|keys| - 1], keys[|keys| - 1];
      assert keys == init + [k];
      PlanByColumn(fields, row, init, t);
      PlanSnoc(fields, row, init, k, t);
      FilledColumnsSnoc(row, init, k);
      var before := FilledColumns(row, init);
      var prev := Plan(fields, row, init, t);
      if prev.Fail? {
        WalkedAsStopped(fields, row, before, if Truthy(Lookup(row, k)) then [k] else [], t, prev);
      } else if Truthy(Lookup(row, k)) {
        match ColumnResult(fields, row, k, t)
        case Resolved(u) => WalkedAsResolved(fields, row, before, k, t, prev.updates, u);
        case Unresolved(f) => WalkedAsUnresolved(fields, row, before, k, t, prev.updates, f);
      } else {
        assert before + [] == before;
      }
    }
  }

  /**
   * The walk succeeds exactly when every filled key resolves, and then issues one
   * update per filled key: the keys minus the empty ones.
   */
  lemma PlanOkIff(fields: seq<FieldNode>, row: Row, keys: seq<string>, t: Target)
    ensures var filled := FilledColumns(row, keys);
            Plan(fields, row, keys, t).Ok? <==>
              forall i :: 0 <= i < |filled| ==> ColumnResult(fields, row, filled[i], t).Resolved?
    ensures Plan(fields, row, keys, t).Ok? ==>
              |Plan(fields, row, keys, t).updates| == |keys| - |EmptyColumns(row, keys)|
  {
    PlanByColumn(fields, row, keys, t);
    FilterPartition(keys, Filled(row), Empty(row));
  }

  /** Empty cells take no part in the walk: walking only the filled keys gives the same outcome. */
  lemma {:induction false} EmptyCellsSkipped(fields: seq<FieldNode>, row: Row, keys: seq<string>, t: Target)
    ensures Plan(fields, row, keys, t) == Plan(fields, row, FilledColumns(row, keys), t)
    decreases |keys|
  {
    if keys != [] {
      var init, k := keys[..|keys| - 1], keys[|keys| - 1];
      assert keys == init + [k];
      EmptyCellsSkipped(fields, row, init, t);
      PlanSnoc(fields, row, init, k, t);
      FilledColumnsSnoc(row, init, k);
      var before := FilledColumns(row, init);
      if Truthy(Lookup(row, k)) {
        PlanSnoc(fields, row, before, k, t);
      } else {
        assert before + [] == before;
      }
    }
  }

  /** A project key resolves against the catalogue narrowed to the keys as against the whole catalogue. */
  lemma ResolveInFieldData(fieldsList: seq<FieldNode>, keys: seq<string>, field: string, option: string, t: Target)
    requires field in keys
    ensures Resolve(FieldData(fieldsList, keys), field, option, t) == Resolve(fieldsList, field, option, t)
  {
    FieldDataKeepsFieldId(fieldsList, keys, field);
    if FieldIndex(fieldsList, field).Some? {
      FieldDataKeepsOptionId(fieldsList, keys, field, option);
    }
  }

  /**
   * `main`: select the row of the label (no row: no action); derive the project keys;
   * find the issue's item in the target project (none: fail before any update);
   * narrow the field catalogue to the keys; walk the keys.
   */
  function Run(inputs: Inputs, csv: seq<Row>, properties: ProjectProperties): (r: Outcome)
    ensures r.NoAction? <==>
              forall i :: 0 <= i < |csv| ==> !MatchesLabel(csv[i], inputs.labelHeader, inputs.labelName)
  {
    match SelectRow(csv, inputs.labelHeader, inputs.labelName)
    case None => NoAction
    case Some(csvLine) =>
      var projectKeys := ProjectKeys(csvLine, inputs.labelHeader);
      var projectId := properties.project.id;
      var projectItemId := ProjectItemId(properties.items, projectId);
      if !Truthy(projectItemId) then Fail(NotAttached(inputs.issueNumber, inputs.projectNumber), [])
      else
        var fieldsData := FieldData(properties.project.fields, projectKeys);
        Plan(fieldsData, csvLine, projectKeys,
             Target(projectId, projectItemId.value, inputs.labelName, inputs.projectNumber))
  }

  /**
   * When the label has a row but the issue has no (truthy) item id in the target
   * project, the run fails naming the issue and project numbers, with no update.
   */
  lemma RunNotAttached(inputs: Inputs, csv: seq<Row>, properties: ProjectProperties)
    requires exists i :: 0 <= i < |csv| && MatchesLabel(csv[i], inputs.labelHeader, inputs.labelName)
    requires !Truthy(ProjectItemId(properties.items, properties.project.id))
    ensures Run(inputs, csv, properties) == Fail(NotAttached(inputs.issueNumber, inputs.projectNumber), [])
  {
  }

  /**
   * The whole run once a row is selected and the issue's item is found, stated against
   * the project's whole field catalogue: the run walks the non-label columns of the
   * row whose cell is filled, in column order, each resolving to an update of the
   * found item in the project or stopping the run (see `WalkedAs` and `Resolve`).
   */
  lemma RunByColumn(inputs: Inputs, csv: seq<Row>, properties: ProjectProperties, csvLine: Row, itemId: string)
    requires SelectRow(csv, inputs.labelHeader, inputs.labelName) == Some(csvLine)
    requires ProjectItemId(properties.items, properties.project.id) == Some(itemId) && itemId != ""
    ensures WalkedAs(properties.project.fields, csvLine, FilledColumns(csvLine, ProjectKeys(csvLine, inputs.labelHeader)),
                     Target(properties.project.id, itemId, inputs.labelName, inputs.projectNumber),
                     Run(inputs, csv, properties))
  {
    var keys := ProjectKeys(csvLine, inputs.labelHeader);
    var filled := FilledColumns(csvLine, keys);
    var t := Target(properties.project.id, itemId, inputs.labelName, inputs.projectNumber);
    var catalogue := properties.project.fields;
    var narrowed := FieldData(catalogue, keys);
    PlanByColumn(narrowed, csvLine, keys, t);
    forall i | 0 <= i < |filled|
      ensures ColumnResult(narrowed, csvLine, filled[i], t) == ColumnResult(catalogue, csvLine, filled[i], t)
    {
      assert filled[i] in filled;
      ResolveInFieldData(catalogue, keys, filled[i], CellText(csvLine, filled[i]), t);
    }
  }

  /**
   * The GraphQL client, reduced to the one write the action makes; `issued` records
   * every mutation sent, in the order sent.
   */
  class GraphQLClient {
    var issued: seq<Update>

    constructor ()
      ensures issued == []
    {
      issued := [];
    }

    /** `updateProjectField`: send one mutation setting the field of the item to the option. */
    method UpdateProjectField(projectId: string, itemId: string, fieldId: string, optionId: string)
      modifies this
      ensures issued == old(issued) + [Update(projectId, itemId, fieldId, optionId)]
    {
      issued := issued + [Update(projectId, itemId, fieldId, optionId)];
    }
  }

  /**
   * `updateIssueFields`: walk the project keys in order, skip empty cells, resolve the
   * field and the option of each filled one and send its update, and stop with the
   * failure at the first that does not resolve. What it sends, and whether it fails,
   * is exactly what `Plan` says.
   */
  method UpdateIssueFields(client: GraphQLClient, projectId: string, itemId: string, labelName: string,
                           projectNumber: int, csvLine: Row, projectKeys: seq<string>, fieldsData: seq<FieldNode>)
    returns (error: Option<Failure>)
    modifies client
    ensures var plan := Plan(fieldsData, csvLine, projectKeys, Target(projectId, itemId, labelName, projectNumber));
            && client.issued == old(client.issued) + Issued(plan)
            && error == if plan.Fail? then Some(plan.error) else None
  {
    ghost var t := Target(projectId, itemId, labelName, projectNumber);
    ghost var done: seq<Update> := [];
    var i := 0;
    while i < |projectKeys|
      invariant 0 <= i <= |projectKeys|
      invariant client.issued == old(client.issued) + done
      invariant Plan(fieldsData, csvLine, projectKeys[..i], t) == Ok(done)
    {
      var field := projectKeys[i];
      assert projectKeys[..i + 1][..i] == projectKeys[..i];
      var fieldOption := Lookup(csvLine, field);
      if Truthy(fieldOption) {
        var fieldId := FieldId(fieldsData, field);
        if !Truthy(fieldId) {
          PlanFailPersists(fieldsData, csvLine, projectKeys, i + 1, t);
          return Some(UnknownField(field, projectNumber));
        }
        var fieldOptionId := OptionId(fieldsData, field, fieldOption.value);
        if Truthy(fieldId) && Truthy(fieldOptionId) {
          client.UpdateProjectField(projectId, itemId, fieldId.value, fieldOptionId.value);
          done := done + [Update(projectId, itemId, fieldId.value, fieldOptionId.value)];
        } else {
          PlanFailPersists(fieldsData, csvLine, projectKeys, i + 1, t);
          return Some(UnknownOption(labelName, field, fieldOption.value));
        }
      }
      i := i + 1;
    }
    assert projectKeys[..i] == projectKeys;
    return None;
  }

  /**
   * `main`, from the parsed table and the fetched project properties onwards: the
   * outcome is `Run`'s and the updates sent through the client are those it lists.
   */
  method RunAction(client: GraphQLClient, inputs: Inputs, csv: seq<Row>, properties: ProjectProperties)
    returns (outcome: Outcome)
    modifies client
    ensures outcome == Run(inputs, csv, properties)
    ensures client.issued == old(client.issued) + Issued(outcome)
  {
    var csvLine := SelectRow(csv, inputs.labelHeader, inputs.labelName);
    if csvLine.Some? {
      var projectKeys := ProjectKeys(csvLine.value, inputs.labelHeader);
      var projectV2 := properties.project;
      var projectId := projectV2.id;
      var projectItems := properties.items;
      var projectItemId := ProjectItemId(projectItems, projectId);
      if !Truthy(projectItemId) {
        return Fail(NotAttached(inputs.issueNumber, inputs.projectNumber), []);
      }
      var fieldsData := FieldData(projectV2.fields, projectKeys);
      var before := client.issued;
      var error := UpdateIssueFields(client, projectId, projectItemId.value, inputs.labelName,
                                     inputs.projectNumber, csvLine.value, projectKeys, fieldsData);
      var sent := client.issued[|before|..];
      assert sent == Issued(Run(inputs, csv, properties));
      outcome := if error.Some? then Fail(error.value, sent) else Ok(sent);
    } else {
      outcome := NoAction;
    }
  }
}
