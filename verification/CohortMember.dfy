/** The rows of the cohort-member table, and how a call to the database can end. */
module CohortMember {
  import opened JsValues

  datatype MemberStatus =
    | ACTIVE | INACTIVE | DROPOUT | ARCHIVED | REASSIGNED | PENDING
    | INTRAINING | COURSECOMPLETED | PLACED | RETENTIONCOMPLETE

  /** Who is where in which year of a cohort: the table should hold one row for each. */
  datatype Seat = Seat(userId: string, cohortId: string, yearId: string)

  datatype Member = Member(
    seat: Seat, status: MemberStatus, role: Option<string>, createdBy: string, updatedBy: string)

  predicate UniqueRows(members: seq<Member>) {
    forall i, j :: 0 <= i < j < |members| ==> members[i].seat != members[j].seat
  }

  predicate HasRow(members: seq<Member>, seat: Seat) {
    exists i :: 0 <= i < |members| && members[i].seat == seat
  }

  /** How a call to the database ends: it returns, it throws undone, or it throws and takes effect all the same. */
  datatype Fault = Fine | Refused | Landed
}
