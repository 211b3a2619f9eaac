/**
 * The admin registrations table: search and status filter, statistics
 * cards, status labels, the export rows, and the status update write.
 */
module AdminDashboard {
  import opened Wrappers
  import opened Text
  import opened Seqs

  datatype Registration = Registration(
    id: string,
    packageName: string,
    packageId: int,
    fullName: string,
    email: string,
    phone: string,
    nik: string,
    roomType: string,
    status: string,
    createdAt: string,
    userId: Option<string>)

  datatype StatusOption = StatusOption(code: string, caption: string, color: string)

  const StatusOptions: seq<StatusOption> := [
    StatusOption("pending", "Menunggu", "bg-yellow-500"),
    StatusOption("confirmed", "Dikonfirmasi", "bg-blue-500"),
    StatusOption("paid", "Lunas", "bg-green-500"),
    StatusOption("cancelled", "Dibatalkan", "bg-red-500")
  ]

  const AllStatuses: string := "all"

  /** `statusOptions.find(s => s.value === status)`. */
  function FindStatus(status: string): (o: Option<StatusOption>)
    ensures o.Some? ==> o.value in StatusOptions && o.value.code == status
    ensures o.None? ==> forall k :: 0 <= k < |StatusOptions| ==> StatusOptions[k].code != status
  {
    if status == "pending" then Some(StatusOptions[0])
    else if status == "confirmed" then Some(StatusOptions[1])
    else if status == "paid" then Some(StatusOptions[2])
    else if status == "cancelled" then Some(StatusOptions[3])
    else None
  }

  /** `getStatusLabel`: the known code's label, otherwise the raw status. */
  function StatusLabel(status: string): string {
    match FindStatus(status)
    case Some(o) => o.caption
    case None => status
  }

  /** The label is the raw status exactly when the status is not one of the four known codes. */
  lemma StatusLabelFallback(status: string)
    ensures StatusLabel(status) == status <==> FindStatus(status).None?
    ensures FindStatus(status).Some? ==> StatusLabel(status) in {"Menunggu", "Dikonfirmasi", "Lunas", "Dibatalkan"}
  {
  }

  /** Badge colour of `getStatusBadge`: the known code's colour, otherwise grey. */
  function StatusColor(status: string): (c: string)
    ensures c == "bg-gray-500" <==> FindStatus(status).None?
  {
    match FindStatus(status)
    case Some(o) => o.color
    case None => "bg-gray-500"
  }

  /** Name and email match case-insensitively; phone and NIK match case-sensitively. */
  predicate MatchesSearch(r: Registration, term: string) {
    Contains(Lower(r.fullName), Lower(term)) || Contains(Lower(r.email), Lower(term))
    || Contains(r.phone, term) || Contains(r.nik, term)
  }

  predicate MatchesStatus(r: Registration, statusFilter: string) {
    statusFilter == AllStatuses || r.status == statusFilter
  }

  /** `filteredRegistrations`. */
  function FilteredRegistrations(regs: seq<Registration>, term: string, statusFilter: string): (r: seq<Registration>)
    ensures forall x :: x in r <==> x in regs && MatchesSearch(x, term) && MatchesStatus(x, statusFilter)
    ensures SubsequenceOf(r, regs)
  {
    Filter(regs, (x: Registration) => MatchesSearch(x, term) && MatchesStatus(x, statusFilter))
  }

  /** An empty search with the "all" filter lists every registration in order. */
  lemma UnfilteredKeepsAll(regs: seq<Registration>)
    ensures FilteredRegistrations(regs, "", AllStatuses) == regs
  {
    forall i | 0 <= i < |regs|
      ensures MatchesSearch(regs[i], "")
    {
      ContainsEmpty(regs[i].phone);
    }
    FilterAll(regs, (x: Registration) => MatchesSearch(x, "") && MatchesStatus(x, AllStatuses));
  }

  datatype Stats = Stats(total: nat, pending: nat, confirmed: nat, paid: nat)

  predicate IsPending(r: Registration) { r.status == "pending" }
  predicate IsConfirmed(r: Registration) { r.status == "confirmed" }
  predicate IsPaid(r: Registration) { r.status == "paid" }

  /**
   * The statistics cards; cancelled and unknown statuses are in `total` only.
   * A status card is zero exactly when no registration has that status.
   */
  function ComputeStats(regs: seq<Registration>): (s: Stats)
    ensures s.total == |regs|
    ensures s.pending + s.confirmed + s.paid <= s.total
    ensures s.pending == 0 <==> forall i :: 0 <= i < |regs| ==> !IsPending(regs[i])
    ensures s.confirmed == 0 <==> forall i :: 0 <= i < |regs| ==> !IsConfirmed(regs[i])
    ensures s.paid == 0 <==> forall i :: 0 <= i < |regs| ==> !IsPaid(regs[i])
    ensures s.pending == s.total <==> forall i :: 0 <= i < |regs| ==> IsPending(regs[i])
  {
    CountDisjoint3(regs, IsPending, IsConfirmed, IsPaid);
    CountZeroIff(regs, IsPending);
    CountZeroIff(regs, IsConfirmed);
    CountZeroIff(regs, IsPaid);
    CountFullIff(regs, IsPending);
    Stats(|regs|, Count(regs, IsPending), Count(regs, IsConfirmed), Count(regs, IsPaid))
  }

  /** The cards of an empty list are all zero. */
  lemma StatsOfEmpty()
    ensures ComputeStats([]) == Stats(0, 0, 0, 0)
  {
  }

  /**
   * One more registration adds one to the total and one to the card of its
   * status; a cancelled or unknown status only raises the total.
   */
  lemma StatsAddRegistration(r: Registration, regs: seq<Registration>)
    ensures var before, after := ComputeStats(regs), ComputeStats([r] + regs);
      after == Stats(before.total + 1,
                     before.pending + (if IsPending(r) then 1 else 0),
                     before.confirmed + (if IsConfirmed(r) then 1 else 0),
                     before.paid + (if IsPaid(r) then 1 else 0))
  {
    CountCons(r, regs, IsPending);
    CountCons(r, regs, IsConfirmed);
    CountCons(r, regs, IsPaid);
    assert ComputeStats([r] + regs) ==
      Stats(|[r] + regs|, Count([r] + regs, IsPending), Count([r] + regs, IsConfirmed), Count([r] + regs, IsPaid));
  }

  /** `charAt(0).toUpperCase() + slice(1)`. */
  function Capitalize(s: string): (r: string)
    ensures |r| == |s|
    ensures |s| > 0 ==> r[0] == UpperChar(s[0]) && r[1..] == s[1..]
  {
    if |s| == 0 then "" else [UpperChar(s[0])] + s[1..]
  }

  /** One exported row; the registration date is carried unformatted. */
  datatype ExportRow = ExportRow(
    no: int,
    fullName: string,
    email: string,
    phone: string,
    nik: string,
    packageName: string,
    roomType: string,
    status: string,
    registeredOn: string)

  function ExportRowOf(no: int, r: Registration): ExportRow {
    ExportRow(no, r.fullName, r.email, r.phone, r.nik, r.packageName, Capitalize(r.roomType), StatusLabel(r.status), r.createdAt)
  }

  /** `formatExportData`: one row per registration, numbered 1..n in order. */
  function FormatExportData(regs: seq<Registration>): (rows: seq<ExportRow>)
    ensures |rows| == |regs|
    ensures forall i :: 0 <= i < |regs| ==>
      rows[i].no == i + 1 && rows[i].fullName == regs[i].fullName && rows[i].email == regs[i].email &&
      rows[i].phone == regs[i].phone && rows[i].nik == regs[i].nik && rows[i].packageName == regs[i].packageName &&
      rows[i].status == StatusLabel(regs[i].status) && rows[i].registeredOn == regs[i].createdAt &&
      rows[i].roomType == Capitalize(regs[i].roomType)
  {
    seq(|regs|, i requires 0 <= i < |regs| => ExportRowOf(i + 1, regs[i]))
  }

  /** `updateStatus(id, newStatus)`: only the matching registration's status changes. */
  function UpdateStatus(regs: seq<Registration>, id: string, newStatus: string): (r: seq<Registration>)
    ensures |r| == |regs|
    ensures forall i :: 0 <= i < |regs| && regs[i].id == id ==> r[i].status == newStatus && r[i].(status := regs[i].status) == regs[i]
    ensures forall i :: 0 <= i < |regs| && regs[i].id != id ==> r[i] == regs[i]
  {
    seq(|regs|, i requires 0 <= i < |regs| => if regs[i].id == id then regs[i].(status := newStatus) else regs[i])
  }
}
