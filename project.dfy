/**
 * The project metadata one GraphQL read returns, and the lookups index.js performs
 * on it: narrowing the field catalogue to the project keys, finding the issue's item
 * in the target project, and resolving a field id and an option id by name.
 */
module Project {
  import opened Js

  datatype SelectOption = SelectOption(id: string, name: string)

  /**
   * One node of `projectV2.fields`. The query selects `id`, `name` and `options` only
   * `... on ProjectV2SingleSelectField`, so every other kind of field arrives as an
   * empty object with no name.
   */
  datatype FieldNode =
    | SingleSelect(id: string, name: string, options: seq<SelectOption>)
    | OtherField

  /** One node of `issue.projectItems`: the item's id and the id of the project it belongs to. */
  datatype ProjectItem = ProjectItem(id: string, projectId: string)

  datatype ProjectV2 = ProjectV2(id: string, fields: seq<FieldNode>)

  /** What the read query returns, reduced to what the action uses. */
  datatype ProjectProperties = ProjectProperties(project: ProjectV2, items: seq<ProjectItem>)

  /** `item.name == field`: only single-select fields carry a name. */
  predicate Named(f: FieldNode, name: string) {
    f.SingleSelect? && f.name == name
  }

  /** `fieldNames.includes(field.name)` */
  function NameAmong(fieldNames: seq<string>): FieldNode -> bool {
    (f: FieldNode) => f.SingleSelect? && f.name in fieldNames
  }

  /**
   * `getFieldData`: the catalogue fields whose name is one of `fieldNames`, in
   * catalogue order, each kept as often as it occurs; unnamed nodes are dropped.
   */
  function FieldData(fieldsList: seq<FieldNode>, fieldNames: seq<string>): (r: seq<FieldNode>)
    ensures IsSubsequence(r, fieldsList)
    ensures forall f :: multiset(r)[f] == if f.SingleSelect? && f.name in fieldNames then multiset(fieldsList)[f] else 0
  {
    Filter(fieldsList, NameAmong(fieldNames))
  }

  /**
   * `getProjectItemId`: the id of the first item that belongs to the project,
   * `undefined` when the issue has no item in it.
   */
  function ProjectItemId(items: seq<ProjectItem>, projectId: string): (r: Option<string>)
    ensures r.None? <==> forall i :: 0 <= i < |items| ==> items[i].projectId != projectId
    ensures r.Some? ==> exists i :: 0 <= i < |items| && items[i].projectId == projectId && r.value == items[i].id
                                    && forall j :: 0 <= j < i ==> items[j].projectId != projectId
  {
    match Find(items, (item: ProjectItem) => item.projectId == projectId)
    case None => None
    case Some(i) =>
      assert IsFirst(items, (item: ProjectItem) => item.projectId == projectId, i);
      Some(items[i].id)
  }

  /** The position of `fields.find((item) => item.name == field)`. */
  function FieldIndex(fields: seq<FieldNode>, field: string): (r: Option<nat>)
    ensures r.None? <==> forall i :: 0 <= i < |fields| ==> !Named(fields[i], field)
    ensures r.Some? ==> r.value < |fields| && Named(fields[r.value], field)
                        && forall j :: 0 <= j < r.value ==> !Named(fields[j], field)
  {
    var r := Find(fields, (f: FieldNode) => Named(f, field));
    assert r.Some? ==> IsFirst(fields, (f: FieldNode) => Named(f, field), r.value);
    r
  }

  /** `getFieldId`: the id of the first single-select field with that name, `undefined` if none. */
  function FieldId(fields: seq<FieldNode>, field: string): (r: Option<string>)
    ensures r.None? <==> forall i :: 0 <= i < |fields| ==> !Named(fields[i], field)
    ensures r.Some? ==> exists i :: 0 <= i < |fields| && Named(fields[i], field) && r.value == fields[i].id
                                    && forall j :: 0 <= j < i ==> !Named(fields[j], field)
  {
    match FieldIndex(fields, field)
    case None => None
    case Some(i) => Some(fields[i].id)
  }

  /**
   * `getOptionId`: within the first field with that name, the id of the first option
   * with that name, `undefined` if the field has none. The source dereferences the
   * field unchecked, so its callers resolve the field first.
   */
  function OptionId(fields: seq<FieldNode>, field: string, option: string): (r: Option<string>)
    requires FieldIndex(fields, field).Some?
    ensures var options := fields[FieldIndex(fields, field).value].options;
            && (r.None? <==> forall i :: 0 <= i < |options| ==> options[i].name != option)
            && (r.Some? ==> exists i :: 0 <= i < |options| && options[i].name == option && r.value == options[i].id
                                        && forall j :: 0 <= j < i ==> options[j].name != option)
  {
    var options := fields[FieldIndex(fields, field).value].options;
    match Find(options, (o: SelectOption) => o.name == option)
    case None => None
    case Some(i) =>
      assert IsFirst(options, (o: SelectOption) => o.name == option, i);
      Some(options[i].id)
  }

  /**
   * Narrowing the catalogue to the project keys does not change how a key resolves:
   * for every name among the keys, the first field of that name is the same object
   * in the narrowed list as in the whole catalogue.
   */
  lemma {:induction false} FieldDataKeepsFirstMatch(fieldsList: seq<FieldNode>, fieldNames: seq<string>, field: string)
    requires field in fieldNames
    ensures var narrowed := FieldData(fieldsList, fieldNames);
            && (FieldIndex(narrowed, field).Some? <==> FieldIndex(fieldsList, field).Some?)
            && (FieldIndex(fieldsList, field).Some? ==>
                  narrowed[FieldIndex(narrowed, field).value] == fieldsList[FieldIndex(fieldsList, field).value])
    decreases |fieldsList|
  {
    if fieldsList != [] {
      var n := |fieldsList| - 1;
      var init, last := fieldsList[..n], fieldsList[n];
      FieldDataKeepsFirstMatch(init, fieldNames, field);
      var narrowedInit := FieldData(init, fieldNames);
      assert fieldsList == init + [last];
      var narrowed := FieldData(fieldsList, fieldNames);
      assert narrowed == if NameAmong(fieldNames)(last) then narrowedInit + [last] else narrowedInit;
      FieldIndexAppend(init, last, field);
      FieldIndexAppend(narrowedInit, last, field);
    }
  }

  /** Where the first field of a name lies after one more field is appended to the list. */
  lemma FieldIndexAppend(fields: seq<FieldNode>, last: FieldNode, field: string)
    ensures FieldIndex(fields + [last], field) ==
              if FieldIndex(fields, field).Some? then FieldIndex(fields, field)
              else if Named(last, field) then Some(|fields|)
              else None
  {
    var all := fields + [last];
    assert forall i :: 0 <= i < |fields| ==> all[i] == fields[i];
    var a, b := FieldIndex(all, field), FieldIndex(fields, field);
    if b.Some? {
      assert Named(all[b.value], field);
    } else if Named(last, field) {
      assert Named(all[|fields|], field);
    }
  }

  /** The narrowed catalogue gives every project key the field id the whole catalogue gives it. */
  lemma FieldDataKeepsFieldId(fieldsList: seq<FieldNode>, fieldNames: seq<string>, field: string)
    requires field in fieldNames
    ensures FieldId(FieldData(fieldsList, fieldNames), field) == FieldId(fieldsList, field)
  {
    FieldDataKeepsFirstMatch(fieldsList, fieldNames, field);
  }

  /** ... and every option name the option id the whole catalogue gives it. */
  lemma FieldDataKeepsOptionId(fieldsList: seq<FieldNode>, fieldNames: seq<string>, field: string, option: string)
    requires field in fieldNames
    requires FieldIndex(fieldsList, field).Some?
    ensures FieldIndex(FieldData(fieldsList, fieldNames), field).Some?
    ensures OptionId(FieldData(fieldsList, fieldNames), field, option) == OptionId(fieldsList, field, option)
  {
    FieldDataKeepsFirstMatch(fieldsList, fieldNames, field);
  }
}
