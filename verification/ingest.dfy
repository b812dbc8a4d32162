/**
 Document tier tagging at ingestion (ingest_bedrock.py `get_access_level` and the upload
 loop over `FILES_TO_INGEST`). The tag becomes the `access_level` metadata value that the
 query-time search filter tests.
 */
module Ingest {
  import opened Text
  import opened Roles
  import opened Clearance

  const FilesToIngest: seq<string> := ["policy_public.txt", "hr_sensitive_salaries.txt", "finance_secret_merger.txt"]

  /** `get_access_level`: an ordered, case-sensitive substring test on the filename. */
  function GetAccessLevel(filename: string): (tag: string)
    ensures tag in {"hr", "finance", "public"}
    ensures tag == "hr" <==> Contains(filename, "hr")
    ensures tag == "finance" <==> !Contains(filename, "hr") && Contains(filename, "finance")
    ensures tag == "public" <==> !Contains(filename, "hr") && !Contains(filename, "finance")
  {
    if Contains(filename, "hr") then "hr"
    else if Contains(filename, "finance") then "finance"
    else "public"
  }

  /** The two objects uploaded per file: the text under its own name and a metadata
      sidecar carrying the tier. */
  datatype Upload = Upload(key: string, metadataKey: string, accessLevel: string)

  /** The upload plan of the ingestion loop, one entry per file in order. */
  method PlanUploads(files: seq<string>) returns (uploads: seq<Upload>)
    ensures |uploads| == |files|
    ensures forall i :: 0 <= i < |files| ==>
              uploads[i] == Upload(files[i], files[i] + ".metadata.json", GetAccessLevel(files[i]))
    ensures forall i :: 0 <= i < |uploads| ==> Admits(FilterFor(Name(CFO)), uploads[i].accessLevel)
  {
    uploads := [];
    var n := 0;
    while n < |files|
      invariant 0 <= n <= |files| && |uploads| == n
      invariant forall i :: 0 <= i < n ==>
                  uploads[i] == Upload(files[i], files[i] + ".metadata.json", GetAccessLevel(files[i]))
    {
      var f := files[n];
      uploads := uploads + [Upload(f, f + ".metadata.json", GetAccessLevel(f))];
      n := n + 1;
    }
  }

  // ---------------------------------------------------------------------------
  // Properties

  /** A string without the first character of `sub` cannot contain `sub`. */
  lemma AbsentFirstChar(s: string, sub: string)
    requires |sub| > 0 && sub[0] !in s
    ensures !Contains(s, sub)
  {
  }

  /** A file name with neither "hr" nor "finance" is public. */
  lemma PublicName(f: string)
    requires 'h' !in f && 'f' !in f
    ensures GetAccessLevel(f) == "public"
  {
    AbsentFirstChar(f, "hr");
    AbsentFirstChar(f, "finance");
  }

  /** A file name starting with "hr" is tagged hr, whatever follows. */
  lemma HrName(rest: string)
    ensures GetAccessLevel("hr" + rest) == "hr"
  {
  }

  /** A file name starting with "finance" and without an 'h' is tagged finance. */
  lemma FinanceName(rest: string)
    requires 'h' !in rest
    ensures GetAccessLevel("finance" + rest) == "finance"
  {
    assert OccursAt("finance" + rest, "finance", 0);
    AbsentFirstChar("finance" + rest, "hr");
  }

  /** The three configured files get the three tiers, one each. */
  lemma ConfiguredPolicyIsPublic()
    ensures GetAccessLevel(FilesToIngest[0]) == "public"
  {
    PublicName(FilesToIngest[0]);
  }

  lemma ConfiguredSalariesAreHr()
    ensures GetAccessLevel(FilesToIngest[1]) == "hr"
  {
  }

  lemma ConfiguredMergerIsFinance()
    ensures GetAccessLevel(FilesToIngest[2]) == "finance"
  {
    assert FilesToIngest[2] == "finance" + "_secret_merger.txt";
    FinanceName("_secret_merger.txt");
  }

  /** "hr" wins over "finance", and matching is case-sensitive. */
  lemma TaggingOrderAndCase()
    ensures GetAccessLevel("hr_finance_report.txt") == "hr"
    ensures GetAccessLevel("HR") == "public"
    ensures GetAccessLevel("FINANCE.txt") == "public"
  {
    assert "hr_finance_report.txt" == "hr" + "_finance_report.txt";
    HrName("_finance_report.txt");
    PublicName("HR");
    PublicName("FINANCE.txt");
  }

  /** Every tag ingestion produces is a tier tag that the widest filter admits, so every
      ingested document is readable by at least one role. */
  lemma EveryTagReadable(filename: string)
    ensures exists t :: Tag(t) == GetAccessLevel(filename)
    ensures Admits(FilterFor(Name(CFO)), GetAccessLevel(filename))
  {
    FilterAdmitsOnlyTierTags(Name(CFO), GetAccessLevel(filename));
  }
}
