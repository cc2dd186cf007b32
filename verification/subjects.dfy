/** The subject-code table of the contact form. Both controllers carry it, the
    backend one twice (in `formatSubject` and in the operator mail), always with
    the same five entries; every other code passes through unchanged. */
module Subjects {

  const SubjectLabels: map<string, string> := map[
    "general" := "General Inquiry",
    "courses" := "Course Information",
    "technical" := "Technical Support",
    "partnership" := "Partnership Opportunities",
    "other" := "Other"
  ]

  /** `subjectMap[code] || code`. Every label is non-empty, so a known code always
      gets its label. The result is the code itself exactly when the code is
      unknown; it is never itself a known code, so formatting twice changes
      nothing; and it is empty exactly when the code is. */
  function FormatSubject(code: string): (display: string)
    ensures code in SubjectLabels ==> display == SubjectLabels[code]
    ensures display == code <==> code !in SubjectLabels
    ensures display !in SubjectLabels
    ensures display == "" <==> code == ""
  {
    if code in SubjectLabels then SubjectLabels[code] else code
  }

  lemma FormatSubjectIdempotent(code: string)
    ensures FormatSubject(FormatSubject(code)) == FormatSubject(code)
  {
  }

  /** Distinct known codes get distinct labels, so a label names its code. */
  lemma KnownLabelsDistinct(a: string, b: string)
    requires a in SubjectLabels && b in SubjectLabels && a != b
    ensures FormatSubject(a) != FormatSubject(b)
  {
  }
}
