/** Labels and colours of defect statuses and priorities. */
module DefectUtils {
  import opened Js
  import opened Tables
  import opened Labels

  const DefectStatuses: Table<Info> := [
    ("registered", Info("Зарегистрирован", "#FF9800")),
    ("in_progress", Info("В работе", "#2196F3")),
    ("completed", Info("Завершен", "#4CAF50"))
  ]

  const DefectPriorities: Table<Info> := [
    ("low", Info("Низкий", "#9E9E9E")),
    ("medium", Info("Средний", "#FFC107")),
    ("high", Info("Высокий", "#FF9800")),
    ("critical", Info("Критический", "#F44336"))
  ]

  /** The table entry of a known status, the code itself in the fallback
      colour otherwise; the fallback colour shows up exactly for unknown
      codes. */
  function DefectStatusInfo(status: string): (r: Info)
    ensures forall i :: 0 <= i < |DefectStatuses| && DefectStatuses[i].0 == status ==> r == DefectStatuses[i].1
    ensures status !in Keys(DefectStatuses) ==> r == Info(status, FallbackColor)
    ensures r.color == FallbackColor <==> status !in Keys(DefectStatuses)
  {
    DefectTablesWellFormed();
    FallbackColorIffUnknown(DefectStatuses, status);
    InfoOf(DefectStatuses, status)
  }

  /** The same contract for priorities. */
  function DefectPriorityInfo(priority: string): (r: Info)
    ensures forall i :: 0 <= i < |DefectPriorities| && DefectPriorities[i].0 == priority ==> r == DefectPriorities[i].1
    ensures priority !in Keys(DefectPriorities) ==> r == Info(priority, FallbackColor)
    ensures r.color == FallbackColor <==> priority !in Keys(DefectPriorities)
  {
    DefectTablesWellFormed();
    FallbackColorIffUnknown(DefectPriorities, priority);
    InfoOf(DefectPriorities, priority)
  }

  /** Exactly three status codes and four priority codes, in this order,
      each once, none drawn in the fallback colour. */
  lemma DefectTablesWellFormed()
    ensures Keys(DefectStatuses) == ["registered", "in_progress", "completed"]
    ensures Keys(DefectPriorities) == ["low", "medium", "high", "critical"]
    ensures DistinctKeys(DefectStatuses) && DistinctKeys(DefectPriorities)
    ensures NoFallbackColor(DefectStatuses) && NoFallbackColor(DefectPriorities)
  {
  }

  /** Within each table the colours are pairwise distinct. */
  lemma DefectColorsDistinct()
    ensures forall i, j :: 0 <= i < j < |DefectStatuses| ==> DefectStatuses[i].1.color != DefectStatuses[j].1.color
    ensures forall i, j :: 0 <= i < j < |DefectPriorities| ==> DefectPriorities[i].1.color != DefectPriorities[j].1.color
  {
  }

  /** Known codes are exactly the ones the status and priority selects
      offer. */
  predicate IsDefectStatus(code: string) {
    code in Keys(DefectStatuses)
  }

  predicate IsDefectPriority(code: string) {
    code in Keys(DefectPriorities)
  }

  /** The label of a known status is never the raw code, while an unknown
      code is shown as itself. */
  lemma DefectStatusLabelShowsRawCodeOnlyWhenUnknown(status: string)
    ensures !IsDefectStatus(status) ==> DefectStatusInfo(status).text == status
    ensures IsDefectStatus(status) ==> DefectStatusInfo(status).text != status
  {
    DefectTablesWellFormed();
    if IsDefectStatus(status) {
      var r := DefectStatusInfo(status);
      assert (status, r) in DefectStatuses;
    }
  }
}
