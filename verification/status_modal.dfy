/** The dialog that changes a defect's status: a choice among the known
    defect statuses, and a submit that rejects an unchanged status. */
module StatusModal {
  import opened Js
  import opened Tables
  import opened Labels
  import opened Entities
  import opened Ui
  import DefectUtils

  /** The defect's status when the dialog opened, the highlighted choice,
      and whether a submit is in flight. */
  datatype State = State(current: string, selected: string, loading: bool)

  /** The dialog's calls into its parent after one handler. */
  datatype Step = Step(state: State, effects: seq<ModalEffect<string>>)

  const NoChangeMessage: string := "Выберите новый статус"
  const FailMessage: string := "Ошибка при изменении статуса"

  /** The explanation shown under each status choice. */
  const StatusDescriptions: Table<string> := [
    ("registered", "Дефект только что обнаружен и зарегистрирован в системе"),
    ("in_progress", "Работы по устранению дефекта ведутся"),
    ("completed", "Дефект полностью устранен")
  ]

  /** The dialog opens with the defect's own status highlighted and
      nothing in flight. */
  function Init(defect: Defect): (s: State)
    ensures s.selected == defect.status && s.current == defect.status
    ensures !s.loading
  {
    State(defect.status, defect.status, false)
  }

  /** Clicking a choice highlights it and changes nothing else. */
  function Select(s: State, value: string): (r: State)
    ensures r.selected == value
    ensures r.current == s.current && r.loading == s.loading
  {
    s.(selected := value)
  }

  /** The submit control is disabled while a submit is in flight or while
      the highlighted status is the defect's own. */
  predicate SubmitDisabled(s: State) {
    s.loading || s.selected == s.current
  }

  /** The submit control's caption. */
  function SubmitCaption(s: State): (c: string)
    ensures s.loading <==> c == "Сохранение..."
  {
    if s.loading then "Сохранение..." else "Применить"
  }

  /** The first half of a submit: an unchanged status is rejected with an
      alert; otherwise the dialog becomes busy and hands the chosen status
      to its parent. */
  function BeginSubmit(s: State): (r: Step)
    ensures s.selected == s.current ==> r == Step(s, [Alerted(NoChangeMessage)])
    ensures s.selected != s.current ==> r.effects == [Submitted(s.selected)]
    ensures s.selected != s.current ==> r.state.loading
    ensures r.state.current == s.current && r.state.selected == s.selected
  {
    if s.selected == s.current then Step(s, [Alerted(NoChangeMessage)])
    else Step(s.(loading := true), [Submitted(s.selected)])
  }

  /** The second half, once the parent's handler settles: close on
      success, alert and stay open on failure; never busy afterwards. */
  function FinishSubmit(s: State, handlerSucceeded: bool): (r: Step)
    ensures !r.state.loading
    ensures r.state.current == s.current && r.state.selected == s.selected
    ensures r.effects == [Settle(handlerSucceeded, FailMessage)]
  {
    Step(s.(loading := false), [Settle(handlerSucceeded, FailMessage)])
  }

  /** One whole click on the submit control, given whether the parent's
      handler succeeds. */
  function Attempt(s: State, handlerSucceeded: bool): Step {
    var b := BeginSubmit(s);
    if s.selected == s.current then b
    else
      var f := FinishSubmit(b.state, handlerSucceeded);
      Step(f.state, b.effects + f.effects)
  }

  /** The parent's handler is called exactly when the status changed, and
      then with the chosen status. */
  lemma AttemptSubmitsIffChanged(s: State, handlerSucceeded: bool)
    ensures var r := Attempt(s, handlerSucceeded);
            (exists v :: Submitted(v) in r.effects) <==> s.selected != s.current
    ensures s.selected != s.current ==> Attempt(s, handlerSucceeded).effects[0] == Submitted(s.selected)
  {
    var r := Attempt(s, handlerSucceeded);
    if s.selected == s.current {
      assert r.effects == [Alerted(NoChangeMessage)];
    } else {
      assert r.effects[0] == Submitted(s.selected);
    }
  }

  /** The dialog closes exactly when the status changed and the parent's
      handler succeeded; it closes only after the handler was called; a
      failure is reported with an alert and leaves the dialog open. */
  lemma AttemptClosesOnlyOnSuccess(s: State, handlerSucceeded: bool)
    ensures var r := Attempt(s, handlerSucceeded);
            Closed in r.effects <==> s.selected != s.current && handlerSucceeded
    ensures var r := Attempt(s, handlerSucceeded);
            forall i :: 0 <= i < |r.effects| && r.effects[i] == Closed ==> i > 0 && r.effects[i - 1] == Submitted(s.selected)
    ensures s.selected != s.current && !handlerSucceeded ==>
            Attempt(s, handlerSucceeded).effects == [Submitted(s.selected), Alerted(FailMessage)]
  {
    var r := Attempt(s, handlerSucceeded);
    if s.selected == s.current {
      assert r.effects == [Alerted(NoChangeMessage)];
    } else {
      assert r.effects == [Submitted(s.selected), Settle(handlerSucceeded, FailMessage)];
    }
  }

  /** After any attempt that reached the parent the dialog is idle again;
      a rejected attempt changes nothing at all. */
  lemma AttemptLeavesIdle(s: State, handlerSucceeded: bool)
    ensures s.selected != s.current ==> !Attempt(s, handlerSucceeded).state.loading
    ensures s.selected == s.current ==> Attempt(s, handlerSucceeded).state == s
    ensures Attempt(s, handlerSucceeded).state.selected == s.selected
  {
  }

  /** The submit control is enabled exactly when an attempt would reach the
      parent and the dialog is idle. */
  lemma EnabledSubmitReachesParent(s: State)
    ensures !SubmitDisabled(s) <==> !s.loading && BeginSubmit(s).effects == [Submitted(s.selected)]
  {
  }

  /** One row of the list of choices. */
  datatype Row = Row(code: string, text: string, description: string, highlighted: bool)

  /** The rows of a list of choices drawn from a label table: one per
      entry, in table order, with the entry's description (or none). */
  function RowsOf(t: Table<Info>, descriptions: Table<string>, selected: string): (rows: seq<Row>)
    ensures |rows| == |t|
    ensures forall i :: 0 <= i < |rows| ==>
              rows[i].code == t[i].0
              && rows[i].text == t[i].1.text
              && rows[i].description == LookupOr(descriptions, t[i].0, "")
              && (rows[i].highlighted <==> rows[i].code == selected)
  {
    seq(|t|, i requires 0 <= i < |t| =>
      Row(t[i].0, t[i].1.text, LookupOr(descriptions, t[i].0, ""), t[i].0 == selected))
  }

  /** With distinct codes at most one row is highlighted, and one is
      exactly when the selection is among the codes. */
  lemma HighlightedRows(t: Table<Info>, descriptions: Table<string>, selected: string)
    ensures var rows := RowsOf(t, descriptions, selected);
            DistinctKeys(t) ==> forall i, j :: 0 <= i < j < |rows| ==> !(rows[i].highlighted && rows[j].highlighted)
    ensures var rows := RowsOf(t, descriptions, selected);
            (exists i :: 0 <= i < |rows| && rows[i].highlighted) <==> selected in Keys(t)
  {
    var rows := RowsOf(t, descriptions, selected);
    if selected in Keys(t) {
      var k :| 0 <= k < |t| && Keys(t)[k] == selected;
      assert rows[k].highlighted;
    } else {
      forall i | 0 <= i < |rows|
        ensures !rows[i].highlighted
      {
        assert rows[i].code == Keys(t)[i];
      }
    }
  }

  /** The rows of the dialog: one per known defect status, in table order. */
  function Rows(s: State): (rows: seq<Row>)
    ensures |rows| == |DefectUtils.DefectStatuses|
    ensures forall i :: 0 <= i < |rows| ==>
              rows[i].code == DefectUtils.DefectStatuses[i].0
              && rows[i].text == DefectUtils.DefectStatuses[i].1.text
              && (rows[i].highlighted <==> rows[i].code == s.selected)
  {
    RowsOf(DefectUtils.DefectStatuses, StatusDescriptions, s.selected)
  }

  /** At most one row is highlighted, and one is exactly when the chosen
      status is a known one. */
  lemma OneRowHighlighted(s: State)
    ensures var rows := Rows(s);
            forall i, j :: 0 <= i < j < |rows| ==> !(rows[i].highlighted && rows[j].highlighted)
    ensures (exists i :: 0 <= i < |Rows(s)| && Rows(s)[i].highlighted) <==> s.selected in Keys(DefectUtils.DefectStatuses)
  {
    var t := DefectUtils.DefectStatuses;
    assert DistinctKeys(t) by {
      DefectUtils.DefectTablesWellFormed();
    }
    assert Rows(s) == RowsOf(t, StatusDescriptions, s.selected);
    HighlightedRows(t, StatusDescriptions, s.selected);
  }

  /** The descriptions cover exactly the known statuses, each once, and
      none is empty. */
  lemma DescriptionsWellFormed()
    ensures Keys(StatusDescriptions) == Keys(DefectUtils.DefectStatuses)
    ensures DistinctKeys(StatusDescriptions)
    ensures forall i :: 0 <= i < |StatusDescriptions| ==> StatusDescriptions[i].1 != ""
  {
    DefectUtils.DefectTablesWellFormed();
  }

  /** When the descriptions are keyed by exactly the table's codes, each
      once, and none is empty, every row has a description. */
  lemma DescribedRows(t: Table<Info>, descriptions: Table<string>, selected: string)
    requires Keys(descriptions) == Keys(t) && DistinctKeys(descriptions)
    requires forall i :: 0 <= i < |descriptions| ==> descriptions[i].1 != ""
    ensures var rows := RowsOf(t, descriptions, selected);
            forall i :: 0 <= i < |rows| ==> rows[i].description != ""
  {
    var rows := RowsOf(t, descriptions, selected);
    forall i | 0 <= i < |rows|
      ensures rows[i].description != ""
    {
      assert t[i].0 == Keys(t)[i] == Keys(descriptions)[i] == descriptions[i].0;
      assert Lookup(descriptions, t[i].0) == Some(descriptions[i].1);
    }
  }

  /** No row of the dialog goes without a description. */
  lemma EveryRowDescribed(s: State)
    ensures Keys(StatusDescriptions) == Keys(DefectUtils.DefectStatuses)
    ensures forall i :: 0 <= i < |Rows(s)| ==> Rows(s)[i].description != ""
  {
    var t := DefectUtils.DefectStatuses;
    DescriptionsWellFormed();
    assert Rows(s) == RowsOf(t, StatusDescriptions, s.selected);
    DescribedRows(t, StatusDescriptions, s.selected);
  }
}
