/** Report sections and reports, with the title-length rule their declarations enforce. */
module Sections {
  import opened Wrappers
  import opened Variables

  const MinTitleLength: nat := 1
  const MaxTitleLength: nat := 100

  predicate ValidTitle(s: string)
  {
    MinTitleLength <= |s| <= MaxTitleLength
  }

  /** A title that passed validation: 1 to 100 characters. */
  type Title = s: string | ValidTitle(s) witness "a"

  /** `ReportSection`; its creation timestamp is not modelled. */
  datatype ReportSection = ReportSection(
    title: Title,
    content: string,
    variables: map<string, VariableData>,
    cohortDetails: Option<string>)

  /** `Report`; its generation timestamp is not modelled. */
  datatype Report = Report(title: Title, sections: seq<ReportSection>)

  /** Building a section validates its title; `cohort_details` defaults to None. */
  function NewReportSection(title: string, content: string, variables: map<string, VariableData>)
    : (r: Result<ReportSection>)
    ensures r.Err? <==> !(1 <= |title| <= 100)
    ensures r.Err? ==> r.error == TitleLength
    ensures r.Ok? ==> (r.value.title == title && r.value.content == content
                       && r.value.variables == variables && r.value.cohortDetails == None)
  {
    if ValidTitle(title) then Ok(ReportSection(title, content, variables, None)) else Err(TitleLength)
  }

  function NewReport(title: string, sections: seq<ReportSection>): (r: Result<Report>)
    ensures r.Err? <==> !(1 <= |title| <= 100)
    ensures r.Ok? ==> r.value.title == title && r.value.sections == sections
  {
    if ValidTitle(title) then Ok(Report(title, sections)) else Err(TitleLength)
  }

  /** `validate_report`: fails exactly for a report without sections, and otherwise answers true. */
  function ValidateReport(report: Report): (r: Result<bool>)
    ensures r.Err? <==> |report.sections| == 0
    ensures r.Ok? ==> r.value
  {
    if |report.sections| == 0 then Err(EmptyReport) else Ok(true)
  }
}
