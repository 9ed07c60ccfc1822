/** Labels and colours of project statuses. */
module StatusUtils {
  import opened Js
  import opened Tables
  import opened Labels

  const ProjectStatuses: Table<Info> := [
    ("active", Info("Активный", "#4CAF50")),
    ("completed", Info("Завершён", "#2196F3")),
    ("suspended", Info("Приостановлен", "#FF9800"))
  ]

  /** The table entry of a known project status, the code itself in the
      fallback colour otherwise; the fallback colour shows up exactly for
      unknown codes. */
  function StatusInfo(status: string): (r: Info)
    ensures forall i :: 0 <= i < |ProjectStatuses| && ProjectStatuses[i].0 == status ==> r == ProjectStatuses[i].1
    ensures status !in Keys(ProjectStatuses) ==> r == Info(status, FallbackColor)
    ensures r.color == FallbackColor <==> status !in Keys(ProjectStatuses)
  {
    ProjectStatusTableWellFormed();
    FallbackColorIffUnknown(ProjectStatuses, status);
    InfoOf(ProjectStatuses, status)
  }

  /** Exactly three codes, in this order, each once; their colours are
      pairwise distinct and none is the fallback colour. */
  lemma ProjectStatusTableWellFormed()
    ensures Keys(ProjectStatuses) == ["active", "completed", "suspended"]
    ensures DistinctKeys(ProjectStatuses)
    ensures NoFallbackColor(ProjectStatuses)
    ensures forall i, j :: 0 <= i < j < |ProjectStatuses| ==> ProjectStatuses[i].1.color != ProjectStatuses[j].1.color
  {
  }

  /** Distinct known statuses are told apart by colour alone. */
  lemma StatusColorIdentifiesKnownStatus(a: string, b: string)
    requires a in Keys(ProjectStatuses) && b in Keys(ProjectStatuses)
    requires StatusInfo(a).color == StatusInfo(b).color
    ensures a == b
  {
    ProjectStatusTableWellFormed();
    var ra, rb := StatusInfo(a), StatusInfo(b);
    assert (a, ra) in ProjectStatuses;
    assert (b, rb) in ProjectStatuses;
  }
}
