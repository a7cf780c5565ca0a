/** The risk table (src/components/RiskTable.tsx): the set of expanded rows, the sort indicator
    of a column header, and the switches from raw strings to arrows and style classes. */
module RiskTable {
  import opened Wrappers

  /** The new expanded set after a toggle of `id`. */
  function Toggled(expanded: set<string>, id: string): (r: set<string>)
    ensures id in r <==> id !in expanded
    ensures forall x :: x != id ==> (x in r <==> x in expanded)
  {
    if id in expanded then expanded - {id} else expanded + {id}
  }

  /** Toggling the same row twice restores the expanded set. */
  lemma ToggleTwice(expanded: set<string>, id: string)
    ensures Toggled(Toggled(expanded, id), id) == expanded
  {
  }

  /** Toggles of two different rows commute. */
  lemma TogglesCommute(expanded: set<string>, a: string, b: string)
    ensures Toggled(Toggled(expanded, a), b) == Toggled(Toggled(expanded, b), a)
  {
  }

  /** The table's `expandedRows` state. */
  class ExpandedRows {
    var expanded: set<string>

    constructor()
      ensures expanded == {}
    {
      expanded := {};
    }

    /** `toggleRow`: a copy of the set loses `id` if it has it and gains it otherwise. */
    method ToggleRow(id: string)
      modifies this
      ensures expanded == Toggled(old(expanded), id)
    {
      var next := expanded;
      if id in next {
        next := next - {id};
      } else {
        next := next + {id};
      }
      expanded := next;
    }
  }

  datatype Direction = Asc | Desc

  /** `getSortIndicator`: nothing for a column other than the sorted one, an arrow otherwise. */
  function GetSortIndicator(sortColumn: string, sortDirection: Direction, column: string): (r: Option<string>)
    ensures r == None <==> sortColumn != column
    ensures r == Some(" ↑") <==> sortColumn == column && sortDirection == Asc
    ensures r == Some(" ↓") <==> sortColumn == column && sortDirection == Desc
  {
    assert " ↑"[1] != " ↓"[1];
    if sortColumn != column then None
    else
      match sortDirection
      case Asc => Some(" ↑")
      case Desc => Some(" ↓")
  }

  datatype Arrow = Rising | Falling | Level

  /** `getDirectionArrow`: only the two exact strings get a slanted arrow. */
  function GetDirectionArrow(direction: string): (r: Arrow)
    ensures r == Rising <==> direction == "Increasing"
    ensures r == Falling <==> direction == "Decreasing"
    ensures r == Level <==> direction != "Increasing" && direction != "Decreasing"
  {
    match direction
    case "Increasing" => Rising
    case "Decreasing" => Falling
    case _ => Level
  }

  datatype RatingClass = RatingExtreme | RatingHigh | RatingMedium | RatingLow
  datatype StatusClass = StatusEscalated | StatusOpen | StatusMitigating | StatusClosed
  datatype ActionClass = ActionInProgress | ActionCompleted | ActionPlanned

  /** `getRatingClass`: an unknown rating is styled as Low. */
  function GetRatingClass(rating: string): (r: RatingClass)
    ensures r == RatingExtreme <==> rating == "Extreme"
    ensures r == RatingHigh <==> rating == "High"
    ensures r == RatingMedium <==> rating == "Medium"
    ensures r == RatingLow <==> rating !in {"Extreme", "High", "Medium"}
  {
    match rating
    case "Extreme" => RatingExtreme
    case "High" => RatingHigh
    case "Medium" => RatingMedium
    case _ => RatingLow
  }

  /** `getStatusClass`: an unknown status is styled as Closed. */
  function GetStatusClass(status: string): (r: StatusClass)
    ensures r == StatusEscalated <==> status == "Escalated"
    ensures r == StatusOpen <==> status == "Open"
    ensures r == StatusMitigating <==> status == "Mitigating"
    ensures r == StatusClosed <==> status !in {"Escalated", "Open", "Mitigating"}
  {
    match status
    case "Escalated" => StatusEscalated
    case "Open" => StatusOpen
    case "Mitigating" => StatusMitigating
    case _ => StatusClosed
  }

  /** `getActionStatusClass`: an unknown action status is styled as Planned. */
  function GetActionStatusClass(status: string): (r: ActionClass)
    ensures r == ActionInProgress <==> status == "In progress"
    ensures r == ActionCompleted <==> status == "Completed"
    ensures r == ActionPlanned <==> status != "In progress" && status != "Completed"
  {
    match status
    case "In progress" => ActionInProgress
    case "Completed" => ActionCompleted
    case _ => ActionPlanned
  }

  /** The fallbacks: strings outside the unions look like the last member of each union. */
  lemma FallbackExamples()
    ensures GetRatingClass("Critical") == GetRatingClass("Low")
    ensures GetStatusClass("Archived") == GetStatusClass("Closed")
    ensures GetActionStatusClass("Cancelled") == GetActionStatusClass("Planned")
    ensures GetDirectionArrow("increasing") == GetDirectionArrow("Stable")
  {
  }
}
