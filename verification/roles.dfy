/**
 Role derivation from an employee identifier (app.py `derive_role`). The role is a
 closed enumeration; its display name is the string stored in the user table, put into
 the cache key and compared by the search-filter construction.
 */
module Roles {
  import opened Wrappers
  import opened Text

  datatype Role = Intern | HRManager | CFO

  /** The name the source stores and compares for each role. */
  function Name(r: Role): string
  {
    match r
    case Intern => "Intern"
    case HRManager => "HR Manager"
    case CFO => "CFO"
  }

  /** The lower-case two-character employee-ID prefix that selects each role. */
  function IdPrefix(r: Role): string
  {
    match r
    case Intern => "in"
    case HRManager => "hr"
    case CFO => "ex"
  }

  /** Python's `employee_id[:2]`: at most the first two characters. */
  function FirstTwo(id: string): (r: string)
    ensures |r| == if |id| < 2 then |id| else 2
    ensures r <= id
  {
    if |id| < 2 then id else id[..2]
  }

  /** `derive_role`: case-folds the first two characters of the ID and looks them up. */
  function DeriveRole(employeeId: string): (r: Option<Role>)
    ensures r.Some? <==> |employeeId| >= 2 && Lower(employeeId[..2]) in {"in", "hr", "ex"}
    ensures r.Some? ==> IdPrefix(r.value) == Lower(employeeId[..2])
  {
    var prefix := Lower(FirstTwo(employeeId));
    if prefix == "in" then Some(Intern)
    else if prefix == "hr" then Some(HRManager)
    else if prefix == "ex" then Some(CFO)
    else None
  }

  /** The role's name in the user table contains no ':' (so it cannot run into the
      cache key's "::" separator). */
  predicate NoColon(s: string)
  {
    forall k :: 0 <= k < |s| ==> s[k] != ':'
  }

  // ---------------------------------------------------------------------------
  // Properties

  /** Each role is derived from exactly the IDs whose folded prefix is the role's own. */
  lemma DeriveRoleExact(employeeId: string, r: Role)
    ensures DeriveRole(employeeId) == Some(r)
        <==> |employeeId| >= 2 && LowerChar(employeeId[0]) == IdPrefix(r)[0]
                             && LowerChar(employeeId[1]) == IdPrefix(r)[1]
  {
  }

  /** IDs shorter than two characters never resolve to a role (and never raise). */
  lemma ShortIdUnresolved(employeeId: string)
    requires |employeeId| < 2
    ensures DeriveRole(employeeId) == None
  {
  }

  /** Round trip: any ID built from a role's prefix, in any letter case, derives that role. */
  lemma DeriveRoleFromPrefix(r: Role, prefix: string, rest: string)
    requires SameUpToCase(prefix, IdPrefix(r))
    ensures DeriveRole(prefix + rest) == Some(r)
  {
    var id := prefix + rest;
    assert id[..2] == prefix;
    assert Lower(prefix) == Lower(IdPrefix(r));
    assert Lower(IdPrefix(r)) == IdPrefix(r);
  }

  /** Only the first two characters matter. */
  lemma DeriveRoleIgnoresSuffix(employeeId: string, rest: string)
    requires |employeeId| >= 2
    ensures DeriveRole(employeeId + rest) == DeriveRole(employeeId)
  {
  }

  /** Distinct roles have distinct names, and no name contains ':'. */
  lemma NamesDistinct(r1: Role, r2: Role)
    ensures Name(r1) == Name(r2) <==> r1 == r2
    ensures NoColon(Name(r1))
  {
  }

  /** The unit-test cases (in12345, hr999, ex001 and "unknown"), plus one upper-case ID
      that the test does not cover. */
  lemma DeriveRoleExamples()
    ensures DeriveRole("in12345") == Some(Intern)
    ensures DeriveRole("hr999") == Some(HRManager)
    ensures DeriveRole("ex001") == Some(CFO)
    ensures DeriveRole("unknown") == None
    ensures DeriveRole("IN4821") == Some(Intern)
  {
    assert Lower("in12345"[..2]) == "in";
    assert Lower("hr999"[..2]) == "hr";
    assert Lower("ex001"[..2]) == "ex";
    assert Lower("unknown"[..2]) == "un";
    assert Lower("IN4821"[..2]) == "in";
  }
}
