/**
 * Worked runs on a small table and project: a label with two filled columns, a label
 * with one empty column, a label absent from the table, an issue outside the project,
 * and a misspelt option.
 */
module Scenarios {
  import opened Js
  import opened Csv
  import opened Project
  import opened LabelToFields

  /** Columns `Label, Status, Priority`: `bug` fills both fields, `question` only Status. */
  function Table(): seq<Row> {
    [ [Cell("Label", "bug"), Cell("Status", "Triage"), Cell("Priority", "High")],
      [Cell("Label", "question"), Cell("Status", "Triage"), Cell("Priority", "")],
      [Cell("Label", "typo"), Cell("Status", "Trage"), Cell("Priority", "")] ]
  }

  /** A project with a Status and a Priority field, plus one field that is not single-select. */
  function Properties(items: seq<ProjectItem>): ProjectProperties {
    ProjectProperties(
      ProjectV2("P1", [ SingleSelect("F-status", "Status", [SelectOption("O-done", "Done"), SelectOption("O-triage", "Triage")]),
                        OtherField,
                        SingleSelect("F-prio", "Priority", [SelectOption("O-high", "High"), SelectOption("O-low", "Low")]) ]),
      items)
  }

  /** The issue sits in another project first, then in P1 as item I1. */
  function Attached(): seq<ProjectItem> {
    [ProjectItem("I0", "P0"), ProjectItem("I1", "P1")]
  }

  function InputsFor(labelName: string): LabelToFields.Inputs {
    LabelToFields.Inputs("Label", labelName, 42, 7)
  }

  function Catalogue(): seq<FieldNode> {
    Properties(Attached()).project.fields
  }

  /** The issue's item in P1 is I1, the first item of that project. */
  lemma ItemFound(items: seq<ProjectItem>)
    requires items == Attached()
    ensures ProjectItemId(items, "P1") == Some("I1")
  {
    assert items[0].projectId != "P1";
  }

  /** `bug` selects the first row. */
  lemma BugRow(csv: seq<Row>)
    requires csv == Table()
    ensures SelectRow(csv, "Label", "bug") == Some(csv[0])
  {
    assert MatchesLabel(csv[0], "Label", "bug");
  }

  /** Every row of the table has the project keys Status and Priority. */
  lemma TableKeys(row: Row)
    requires |row| == 3 && row[0].column == "Label" && row[1].column == "Status" && row[2].column == "Priority"
    ensures ProjectKeys(row, "Label") == ["Status", "Priority"]
  {
    assert Columns(row) == ["Label", "Status", "Priority"];
    HeaderKeys("Label", "Status", "Priority");
  }

  /** Dropping the label column `l` from a header `l, x, y` leaves `x, y`, in that order. */
  lemma HeaderKeys(l: string, x: string, y: string)
    requires x != l && y != l
    ensures Filter([l, x, y], NotLabel(l)) == [x, y]
  {
    var p := NotLabel(l);
    assert [l][..0] == [];
    assert Filter([l], p) == [];
    assert [l, x][..1] == [l];
    assert Filter([l, x], p) == [x];
    assert [l, x, y][..2] == [l, x];
  }

  /** Both fields of `bug` are filled. */
  lemma BugFilled(row: Row)
    requires row == Table()[0]
    ensures Lookup(row, "Status") == Some("Triage")
    ensures Lookup(row, "Priority") == Some("High")
    ensures FilledColumns(row, ["Status", "Priority"]) == ["Status", "Priority"]
  {
    assert Lookup(row, "Status") == Some("Triage") by {
      assert row[0].column != "Status";
    }
    assert Lookup(row, "Priority") == Some("High") by {
      assert row[0].column != "Priority" && row[1].column != "Priority";
    }
    BothFilled(row, "Status", "Priority");
  }

  /** Of two keys, both are filled in this row. */
  lemma BothFilled(row: Row, a: string, b: string)
    requires Truthy(Lookup(row, a)) && Truthy(Lookup(row, b))
    ensures FilledColumns(row, [a, b]) == [a, b]
  {
    var p := Filled(row);
    assert p(a) && p(b);
    assert [a][..0] == [];
    assert Filter([a], p) == [a];
    assert [a, b][..1] == [a];
    assert Filter([a, b], p) == [a] + [b];
  }

  /** Triage is the second option of Status, the first field. */
  lemma StatusTriage(fields: seq<FieldNode>, row: Row, t: Target)
    requires fields == Catalogue()
    requires Lookup(row, "Status") == Some("Triage")
    ensures ColumnResult(fields, row, "Status", t) == Resolved(Update(t.projectId, t.itemId, "F-status", "O-triage"))
  {
    assert FieldIndex(fields, "Status") == Some(0);
    assert OptionId(fields, "Status", "Triage") == Some("O-triage") by {
      assert fields[0].options[0].name != "Triage";
    }
  }

  /** High is the first option of Priority, the third field (after one that is not single-select). */
  lemma PriorityHigh(fields: seq<FieldNode>, row: Row, t: Target)
    requires fields == Catalogue()
    requires Lookup(row, "Priority") == Some("High")
    ensures ColumnResult(fields, row, "Priority", t) == Resolved(Update(t.projectId, t.itemId, "F-prio", "O-high"))
  {
    assert FieldIndex(fields, "Priority") == Some(2) by {
      assert !Named(fields[0], "Priority") && !Named(fields[1], "Priority");
    }
  }

  /** A walk over two filled columns that both resolve is the success that issues their two updates. */
  lemma WalkedBothResolved(fields: seq<FieldNode>, row: Row, a: string, b: string, t: Target, o: Outcome, u: Update, v: Update)
    requires WalkedAs(fields, row, [a, b], t, o)
    requires ColumnResult(fields, row, a, t) == Resolved(u)
    requires ColumnResult(fields, row, b, t) == Resolved(v)
    ensures o == Ok([u, v])
  {
    var cols, us := [a, b], [u, v];
    assert forall i :: 0 <= i < 2 ==> cols[i] == (if i == 0 then a else b) && us[i] == (if i == 0 then u else v);
    WalkedAsAllResolved(fields, row, cols, t, o, us);
  }

  /** `bug` sets Status to Triage and Priority to High: two updates, in column order. */
  lemma BugSetsBothFields(csv: seq<Row>, properties: ProjectProperties)
    requires csv == Table() && properties == Properties(Attached())
    ensures Run(InputsFor("bug"), csv, properties)
         == Ok([Update("P1", "I1", "F-status", "O-triage"), Update("P1", "I1", "F-prio", "O-high")])
  {
    var row, fields := csv[0], properties.project.fields;
    var t := Target("P1", "I1", "bug", 7);
    BugRow(csv);
    TableKeys(row);
    BugFilled(row);
    ItemFound(properties.items);
    RunByColumn(InputsFor("bug"), csv, properties, row, "I1");
    StatusTriage(fields, row, t);
    PriorityHigh(fields, row, t);
    WalkedBothResolved(fields, row, "Status", "Priority", t, Run(InputsFor("bug"), csv, properties),
                       Update("P1", "I1", "F-status", "O-triage"), Update("P1", "I1", "F-prio", "O-high"));
  }

  /** A walk over one filled column ends as that column resolves. */
  lemma WalkedOne(fields: seq<FieldNode>, row: Row, a: string, t: Target, o: Outcome)
    requires WalkedAs(fields, row, [a], t, o)
    ensures match ColumnResult(fields, row, a, t)
            case Resolved(u) => o == Ok([u])
            case Unresolved(f) => o == Fail(f, [])
  {
    if o.Ok? {
      assert o.updates == [o.updates[0]];
    }
  }

  /** Of two keys, only the first is filled in this row. */
  lemma OnlyFirstFilled(row: Row, a: string, b: string)
    requires Truthy(Lookup(row, a)) && !Truthy(Lookup(row, b))
    ensures FilledColumns(row, [a, b]) == [a]
  {
    var p := Filled(row);
    assert [a][..0] == [];
    assert Filter([a], p) == [a];
    assert [a, b][..1] == [a];
  }

  /** `question` selects the second row, whose Priority is empty. */
  lemma QuestionRow(csv: seq<Row>)
    requires csv == Table()
    ensures SelectRow(csv, "Label", "question") == Some(csv[1])
    ensures Lookup(csv[1], "Status") == Some("Triage")
    ensures FilledColumns(csv[1], ["Status", "Priority"]) == ["Status"]
  {
    var row := csv[1];
    assert !MatchesLabel(csv[0], "Label", "question");
    assert MatchesLabel(row, "Label", "question");
    assert Lookup(row, "Status") == Some("Triage") by {
      assert row[0].column != "Status";
    }
    assert Lookup(row, "Priority") == Some("") by {
      assert row[0].column != "Priority" && row[1].column != "Priority";
    }
    OnlyFirstFilled(row, "Status", "Priority");
  }

  /** `question` leaves Priority empty: one update, for Status only. */
  lemma QuestionSkipsEmptyPriority(csv: seq<Row>, properties: ProjectProperties)
    requires csv == Table() && properties == Properties(Attached())
    ensures Run(InputsFor("question"), csv, properties) == Ok([Update("P1", "I1", "F-status", "O-triage")])
  {
    var row, fields := csv[1], properties.project.fields;
    var t := Target("P1", "I1", "question", 7);
    QuestionRow(csv);
    TableKeys(row);
    ItemFound(properties.items);
    RunByColumn(InputsFor("question"), csv, properties, row, "I1");
    StatusTriage(fields, row, t);
    WalkedOne(fields, row, "Status", t, Run(InputsFor("question"), csv, properties));
  }

  /** `typo` selects the third row, whose Status names an option that does not exist. */
  lemma TypoRow(csv: seq<Row>)
    requires csv == Table()
    ensures SelectRow(csv, "Label", "typo") == Some(csv[2])
    ensures Lookup(csv[2], "Status") == Some("Trage")
    ensures FilledColumns(csv[2], ["Status", "Priority"]) == ["Status"]
  {
    var row := csv[2];
    assert !MatchesLabel(csv[0], "Label", "typo");
    assert !MatchesLabel(csv[1], "Label", "typo");
    assert MatchesLabel(row, "Label", "typo");
    assert Lookup(row, "Status") == Some("Trage") by {
      assert row[0].column != "Status";
    }
    assert Lookup(row, "Priority") == Some("") by {
      assert row[0].column != "Priority" && row[1].column != "Priority";
    }
    OnlyFirstFilled(row, "Status", "Priority");
  }

  /** Status has no option Trage. */
  lemma StatusTrage(fields: seq<FieldNode>, row: Row, t: Target)
    requires fields == Catalogue()
    requires Lookup(row, "Status") == Some("Trage")
    ensures ColumnResult(fields, row, "Status", t) == Unresolved(UnknownOption(t.labelName, "Status", "Trage"))
  {
    assert FieldIndex(fields, "Status") == Some(0);
    assert OptionId(fields, "Status", "Trage") == None by {
      assert fields[0].options[0].name != "Trage" && fields[0].options[1].name != "Trage";
    }
  }

  /** `typo` names an option Status does not have: the run fails naming label, field and option. */
  lemma MisspeltOptionFails(csv: seq<Row>, properties: ProjectProperties)
    requires csv == Table() && properties == Properties(Attached())
    ensures Run(InputsFor("typo"), csv, properties) == Fail(UnknownOption("typo", "Status", "Trage"), [])
  {
    var row, fields := csv[2], properties.project.fields;
    var t := Target("P1", "I1", "typo", 7);
    TypoRow(csv);
    TableKeys(row);
    ItemFound(properties.items);
    RunByColumn(InputsFor("typo"), csv, properties, row, "I1");
    StatusTrage(fields, row, t);
    WalkedOne(fields, row, "Status", t, Run(InputsFor("typo"), csv, properties));
  }

  /** `enhancement` has no row: no action. */
  lemma AbsentLabelTakesNoAction(csv: seq<Row>, properties: ProjectProperties)
    requires csv == Table()
    ensures Run(InputsFor("enhancement"), csv, properties) == NoAction
  {
    assert !MatchesLabel(csv[0], "Label", "enhancement");
    assert !MatchesLabel(csv[1], "Label", "enhancement");
    assert !MatchesLabel(csv[2], "Label", "enhancement");
  }

  /** The issue has no item in P1: the run fails naming issue 42 and project 7, with no update. */
  lemma UnattachedIssueFails(csv: seq<Row>, properties: ProjectProperties)
    requires csv == Table() && properties == Properties([ProjectItem("I0", "P0")])
    ensures Run(InputsFor("bug"), csv, properties) == Fail(NotAttached(42, 7), [])
  {
    BugRow(csv);
    RunNotAttached(InputsFor("bug"), csv, properties);
  }
}
