/**
 Clearance tiers and the search filter built from a role (app.py lines 192-195). The
 filter is a structured expression over the document metadata field `access_level`:
 equality for the Intern role, set membership for every other role.
 */
module Clearance {
  import opened Roles

  /** A document's access tier; `Tag` is the metadata value stored with the document. */
  datatype Tier = Public | Hr | Finance

  function Tag(t: Tier): string
  {
    match t
    case Public => "public"
    case Hr => "hr"
    case Finance => "finance"
  }

  /** The metadata field every filter tests. */
  const AccessLevelKey: string := "access_level"

  datatype SearchFilter =
    | Equals(key: string, value: string)
    | In(key: string, values: seq<string>)

  /** The search collaborator's reading of a filter: may a document with this
      `access_level` value be returned? */
  predicate Admits(f: SearchFilter, tag: string)
  {
    match f
    case Equals(_, v) => tag == v
    case In(_, vs) => tag in vs
  }

  /** The filter `main` builds from the session's role name. Any name other than
      "Intern" and "HR Manager" falls into the widest branch. */
  function FilterFor(role: string): (f: SearchFilter)
    ensures f.key == AccessLevelKey
    ensures f.Equals? <==> role == "Intern"
  {
    if role == "Intern" then Equals(AccessLevelKey, "public")
    else if role == "HR Manager" then In(AccessLevelKey, ["public", "hr"])
    else In(AccessLevelKey, ["public", "hr", "finance"])
  }

  /** The explicit clearance table: the tiers each role may read. */
  function ClearanceSet(r: Role): set<Tier>
  {
    match r
    case Intern => {Public}
    case HRManager => {Public, Hr}
    case CFO => {Public, Hr, Finance}
  }

  /** Seniority of a role. */
  function Rank(r: Role): nat
  {
    match r
    case Intern => 0
    case HRManager => 1
    case CFO => 2
  }

  /** A retrieved passage: its text, its source location and its tier tag. */
  datatype Passage = Passage(text: string, uri: string, tag: string)

  /** The search collaborator's contract: nothing excluded by the filter comes back. */
  predicate Honours(f: SearchFilter, passages: seq<Passage>)
  {
    forall i :: 0 <= i < |passages| ==> Admits(f, passages[i].tag)
  }

  // ---------------------------------------------------------------------------
  // Properties

  /** The tags a role's filter admits, for every role name. */
  lemma FilterAdmitsExactly(role: string, tag: string)
    ensures role == "Intern" ==> (Admits(FilterFor(role), tag) <==> tag == "public")
    ensures role == "HR Manager" ==> (Admits(FilterFor(role), tag) <==> tag in {"public", "hr"})
    ensures role != "Intern" && role != "HR Manager" ==>
              (Admits(FilterFor(role), tag) <==> tag in {"public", "hr", "finance"})
  {
  }

  /** The filter built from a role's name admits exactly the tags of that role's
      clearance set. */
  lemma FilterMatchesClearanceSet(r: Role, t: Tier)
    ensures Admits(FilterFor(Name(r)), Tag(t)) <==> t in ClearanceSet(r)
  {
  }

  /** Only the three tier tags are ever admitted. */
  lemma FilterAdmitsOnlyTierTags(role: string, tag: string)
    requires Admits(FilterFor(role), tag)
    ensures exists t :: Tag(t) == tag
  {
    if tag == "public" { assert Tag(Public) == tag; }
    else if tag == "hr" { assert Tag(Hr) == tag; }
    else { assert Tag(Finance) == tag; }
  }

  /** Clearance is nested along seniority, and strictly so. */
  lemma ClearanceMonotone(r1: Role, r2: Role)
    ensures Rank(r1) <= Rank(r2) <==> ClearanceSet(r1) <= ClearanceSet(r2)
    ensures Rank(r1) < Rank(r2) <==> ClearanceSet(r1) < ClearanceSet(r2)
  {
  }

  /** Nesting of the filters themselves: whatever the Intern filter admits the HR Manager
      filter admits, and whatever that admits every other role's filter admits. */
  lemma FiltersNested(role: string, tag: string)
    requires role != "Intern" && role != "HR Manager"
    ensures Admits(FilterFor("Intern"), tag) ==> Admits(FilterFor("HR Manager"), tag)
    ensures Admits(FilterFor("HR Manager"), tag) ==> Admits(FilterFor(role), tag)
    ensures Admits(FilterFor("HR Manager"), "hr") && !Admits(FilterFor("Intern"), "hr")
    ensures Admits(FilterFor(role), "finance") && !Admits(FilterFor("HR Manager"), "finance")
  {
  }
}
