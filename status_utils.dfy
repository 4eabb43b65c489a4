/** The status badge's text and colour classes (client/src/utils/statusUtils.ts). */
module StatusUtils {
  import opened Js
  import opened TaskTypes

  const PendingColor := "bg-yellow-100 text-yellow-800 border-yellow-200"
  const InProgressColor := "bg-blue-100 text-blue-800 border-blue-200"
  const DoneColor := "bg-green-100 text-green-800 border-green-200"
  const UnknownColor := "bg-gray-100 text-gray-800 border-gray-200"

  /** `getStatusColor`: a `switch` on the status, which compares with `===`;
      any value other than the three codes takes the gray default. */
  function StatusColor(status: Status): (r: string)
    ensures r == UnknownColor <==> !IsKnown(status)
    ensures r in {PendingColor, InProgressColor, DoneColor, UnknownColor}
  {
    if StrictEquals(status, Pending) then PendingColor
    else if StrictEquals(status, InProgress) then InProgressColor
    else if StrictEquals(status, Done) then DoneColor
    else UnknownColor
  }

  /** `getStatusText`: the label for a status, 'Unknown' for anything else. */
  function StatusText(status: Status): (r: string)
    ensures r == "Unknown" <==> !IsKnown(status)
    ensures r in {"Pending", "In Progress", "Done", "Unknown"}
  {
    if StrictEquals(status, Pending) then "Pending"
    else if StrictEquals(status, InProgress) then "In Progress"
    else if StrictEquals(status, Done) then "Done"
    else "Unknown"
  }

  /** The three codes read as 'Pending', 'In Progress' and 'Done', and no two
      of them share a text or a colour: both mappings are injective on the
      known codes. */
  lemma KnownStatusesAreDistinguished(a: Status, b: Status)
    requires IsKnown(a) && IsKnown(b) && a != b
    ensures StatusText(a) != StatusText(b)
    ensures StatusColor(a) != StatusColor(b)
    ensures StatusText(Pending) == "Pending" && StatusText(InProgress) == "In Progress" && StatusText(Done) == "Done"
  {
  }

  /** Every value outside the three codes, numbers and strings alike, is
      labelled 'Unknown' in gray. */
  lemma UnknownStatusFallsThrough(status: Status)
    requires !IsKnown(status)
    ensures StatusText(status) == "Unknown" && StatusColor(status) == UnknownColor
  {
  }
}
