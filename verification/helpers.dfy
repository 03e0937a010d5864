/** The client's display helpers: the CSS badge class of a status or a
    priority, the "N/A" placeholder for a missing date, and the unit chosen
    to show a file size. */
module Helpers {
  import opened Common
  import opened Records

  /* ----------------------------------------------------------- badges */

  function StatusClass(st: Status): string
  {
    match st
    case Open => "badge-open"
    case InProgress => "badge-in-progress"
    case Resolved => "badge-resolved"
    case Closed => "badge-closed"
  }

  /** The status a badge class stands for: the inverse of `StatusClass`. */
  function BadgeStatus(c: string): Option<Status>
  {
    if c == "badge-open" then Some(Open)
    else if c == "badge-in-progress" then Some(InProgress)
    else if c == "badge-resolved" then Some(Resolved)
    else if c == "badge-closed" then Some(Closed)
    else None
  }

  /** `getStatusBadgeClass`: a status name gets its own non-empty class, from
      which the status can be read back, so different statuses get different
      classes; any other string gets the empty class. */
  function StatusBadgeClass(status: string): (c: string)
    ensures c == "" <==> ParseStatus(status).None?
    ensures ParseStatus(status).Some? ==> BadgeStatus(c) == ParseStatus(status)
  {
    match ParseStatus(status)
    case None => ""
    case Some(st) => StatusClass(st)
  }

  function PriorityClass(p: Priority): string
  {
    match p
    case Low => "badge-low"
    case Medium => "badge-medium"
    case High => "badge-high"
    case Urgent => "badge-urgent"
  }

  function BadgePriority(c: string): Option<Priority>
  {
    if c == "badge-low" then Some(Low)
    else if c == "badge-medium" then Some(Medium)
    else if c == "badge-high" then Some(High)
    else if c == "badge-urgent" then Some(Urgent)
    else None
  }

  /** `getPriorityBadgeClass`, in the same way as `StatusBadgeClass`. */
  function PriorityBadgeClass(priority: string): (c: string)
    ensures c == "" <==> ParsePriority(priority).None?
    ensures ParsePriority(priority).Some? ==> BadgePriority(c) == ParsePriority(priority)
  {
    match ParsePriority(priority)
    case None => ""
    case Some(p) => PriorityClass(p)
  }

  /** Two status names share a badge exactly when they are the same name;
      likewise for priorities. */
  lemma BadgesDistinct(a: string, b: string)
    ensures ParseStatus(a).Some? && ParseStatus(b).Some? ==> (StatusBadgeClass(a) == StatusBadgeClass(b) <==> a == b)
    ensures ParsePriority(a).Some? && ParsePriority(b).Some? ==> (PriorityBadgeClass(a) == PriorityBadgeClass(b) <==> a == b)
  {
    ParseStatusInverse(a);
    ParseStatusInverse(b);
    ParsePriorityInverse(a);
    ParsePriorityInverse(b);
  }

  /* ------------------------------------------------------------- dates */

  /** `formatDate`: a missing or empty date shows as "N/A"; any other value
      is handed to the locale formatter, which is a parameter of the model. */
  function FormatDate(dateString: Option<string>, localeString: string -> string): (r: string)
    ensures dateString.None? || dateString.value == "" ==> r == "N/A"
    ensures dateString.Some? && dateString.value != "" ==> r == localeString(dateString.value)
  {
    if dateString.None? || dateString.value == "" then "N/A"
    else localeString(dateString.value)
  }

  /* -------------------------------------------------------- file sizes */

  /** 1024 to the power `e`. */
  function Pow(e: nat): (r: nat)
    ensures r >= 1
  {
    if e == 0 then 1 else 1024 * Pow(e - 1)
  }

  /** The unit names there are. */
  const Units: seq<string> := ["Bytes", "KB", "MB", "GB"]

  /** The unit index of a positive size: the largest `i` with 1024^i <= bytes,
      that is, the floor of its logarithm to base 1024. */
  function UnitIndex(bytes: nat): (i: nat)
    requires bytes >= 1
    ensures Pow(i) <= bytes < Pow(i + 1)
  {
    if bytes < 1024 then 0 else 1 + UnitIndex(bytes / 1024)
  }

  /** The unit index is the only `i` whose power range holds the size. */
  lemma {:induction false} UnitIndexUnique(bytes: nat, i: nat)
    requires bytes >= 1
    requires Pow(i) <= bytes < Pow(i + 1)
    ensures i == UnitIndex(bytes)
  {
    var j := UnitIndex(bytes);
    if i < j {
      PowMono(i + 1, j);
    } else if j < i {
      PowMono(j + 1, i);
    }
  }

  lemma {:induction false} PowMono(e: nat, f: nat)
    requires e <= f
    ensures Pow(e) <= Pow(f)
  {
    if e < f {
      PowMono(e, f - 1);
    }
  }

  /** What `sizes[i]` evaluates to: one of the unit names, or JavaScript's
      `undefined` past the end of the list (rendered as the text "undefined"). */
  datatype UnitName = Named(name: string) | Undefined

  /** A size shown as a number and a unit; the number is kept exact (the
      rounding to two decimals is not part of the model). */
  datatype SizeLabel = SizeLabel(amount: real, unit: UnitName)

  /** `sizes[i]`. */
  function UnitAt(i: nat): (u: UnitName)
    ensures u.Undefined? <==> i >= |Units|
    ensures u.Named? ==> u.name in Units
  {
    if i < |Units| then Named(Units[i]) else Undefined
  }

  /** A unit index is past the last unit name exactly for sizes of 1024^4 or more. */
  lemma {:induction false} PastLastUnit(bytes: nat)
    requires bytes >= 1
    ensures UnitIndex(bytes) >= |Units| <==> bytes >= Pow(|Units|)
  {
    var i := UnitIndex(bytes);
    if i >= 4 { PowMono(4, i); } else { PowMono(i + 1, 4); }
  }

  /** `formatFileSize` as written: 0 is "0 Bytes"; otherwise the size is
      divided by 1024^i for the unit index i, and the unit is `sizes[i]`,
      which is undefined exactly for sizes of 1024^4 bytes or more. */
  function FormatFileSizeAsWritten(bytes: nat): (r: SizeLabel)
    ensures bytes == 0 ==> r == SizeLabel(0.0, Named("Bytes"))
    ensures bytes >= 1 ==> Scaled(r.amount, UnitIndex(bytes), bytes)
    ensures r.unit.Undefined? <==> bytes >= Pow(4)
    ensures r.unit.Named? ==> r.unit.name in Units
  {
    if bytes == 0 then SizeLabel(0.0, Named("Bytes"))
    else
      var i := UnitIndex(bytes);
      PastLastUnit(bytes);
      ScaleBack(bytes, i);
      SizeLabel(bytes as real / Pow(i) as real, UnitAt(i))
  }

  /** A one-tebibyte file is labelled with the unit `undefined`. */
  lemma OneTebibyteUnitIsUndefined()
    ensures FormatFileSizeAsWritten(Pow(4)).unit == Undefined
  {
  }

  /** The unit index capped at the last unit name. */
  function CappedIndex(bytes: nat): (j: nat)
    requires bytes >= 1
    ensures j < |Units|
    ensures Pow(j) <= bytes
    ensures j == UnitIndex(bytes) <==> bytes < Pow(4)
  {
    PastLastUnit(bytes);
    if UnitIndex(bytes) < |Units| then UnitIndex(bytes)
    else
      PowMono(|Units| - 1, UnitIndex(bytes));
      |Units| - 1
  }

  /** `formatFileSize` with the unit index capped at the largest unit: the
      unit is always one of the four names, the number times 1024 to the
      unit's position gives back the size, a positive size shows a number of
      at least 1, and below 1024^4 bytes the number is below 1024 and the
      label is the one the code as written gives. */
  function FormatFileSize(bytes: nat): (r: SizeLabel)
    ensures r.unit.Named? && r.unit.name in Units
    ensures bytes == 0 ==> r == FormatFileSizeAsWritten(0)
    ensures bytes >= 1 ==>
      && r.unit == Named(Units[CappedIndex(bytes)])
      && Scaled(r.amount, CappedIndex(bytes), bytes)
      && r.amount >= 1.0
    ensures 1 <= bytes < Pow(4) ==> r.amount < 1024.0 && r == FormatFileSizeAsWritten(bytes)
    ensures bytes >= Pow(4) ==> r.unit == Named("GB")
  {
    if bytes == 0 then SizeLabel(0.0, Named("Bytes"))
    else
      var j := CappedIndex(bytes);
      var scale := Pow(j) as real;
      ScaleBack(bytes, j);
      AmountAtLeastOne(bytes as real, scale);
      if j == UnitIndex(bytes) then
        assert Pow(j + 1) == 1024 * Pow(j);
        AmountBelowKilo(bytes as real, scale);
        SizeLabel(bytes as real / scale, Named(Units[j]))
      else
        SizeLabel(bytes as real / scale, Named(Units[j]))
  }

  /** `amount` units of 1024^i bytes make `bytes`. */
  predicate Scaled(amount: real, i: nat, bytes: nat)
  {
    amount * (Pow(i) as real) == bytes as real
  }

  lemma ScaleBack(bytes: nat, i: nat)
    ensures Scaled(bytes as real / Pow(i) as real, i, bytes)
  {
    var scale := Pow(i) as real;
    assert scale > 0.0;
    assert (bytes as real / scale) * scale == bytes as real;
  }

  lemma AmountAtLeastOne(bytes: real, scale: real)
    requires 0.0 < scale <= bytes
    ensures bytes / scale >= 1.0
  {
  }

  lemma AmountBelowKilo(bytes: real, scale: real)
    requires 0.0 < scale && bytes < 1024.0 * scale
    ensures bytes / scale < 1024.0
  {
  }
}
