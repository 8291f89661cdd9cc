# School dashboard rules, modelled in Dafny

This project models the business rules inside the components of a React
administration dashboard for a university ("Universidad Fray Diego"). The
dashboard keeps one application state: students, teachers, grades, attendance,
exams, teacher evaluations, announcements and automation settings. Each screen
derives figures from that state or hands the shell a new record. The model
covers the following, with one Dafny module per component:

- the retention-risk classification and its ranking;
- the attendance sheet and the absence alerts it sends to a webhook;
- teacher-evaluation statistics and the evaluation form;
- the financial block toggle and totals;
- the dashboard's indicators and career histogram;
- the grade distribution and the grade form;
- a student's own record;
- the ten-question learning-profile survey;
- the CSV export;
- the login rules;
- the announcements board;
- the enrolment and staff forms and their searches;
- the exam builder;
- the automation settings;
- the sidebar;
- the shell that wires these together (`App`).

Every component is modelled on values: datatypes for the records of
`types.ts`, and functions for what a render derives. Two exceptions follow the
source's step-by-step form:

- Loops become methods with invariants, proved against a specification
  function: the attendance map's construction, the save handler's effects,
  the career histogram and the survey tally.
- Objects whose fields change become classes: the survey wizard
  (`InitialAssessment.Assessment`) and the shell (`App.Shell`).

Modelling choices:

- Numbers are exact `real`s.
- JavaScript's stable `sort` is a stable insertion sort (`Sorting.SortDesc`), proved sorted, a permutation, and stable.
- A plain object used as a dictionary is an insertion-ordered list of entries, the order `Object.entries` reports for keys that are not integer-like.
- Random ids, the clock, the AI question generator and the administrator's credentials are parameters.
- Side effects of the save handler are returned as a list of effects.

Helper modules:

| Module | Contents |
|---|---|
| `Types` | the records |
| `Seqs` | filter, map, sum, find, subsequence |
| `Sorting` | the stable sort |
| `Text` | lower-casing, trimming, substring search, join and split, `parseInt`, ISO dates |

## Model

| member | source | states |
|---|---|---|
| RiskAnalysis.GradesOfMember | components/RiskAnalysis.tsx:19 | a grade is among a student's grades iff it is in the state and carries that student's id |
| RiskAnalysis.AttendanceOfMember | components/RiskAnalysis.tsx:24 | an attendance record is counted for a student iff it is in the state and carries that student's id |
| RiskAnalysis.AvgGrade | components/RiskAnalysis.tsx:19-22 | a student without grades averages the sentinel 10; otherwise the average times the count is the sum of the student's scores |
| RiskAnalysis.Percent | components/RiskAnalysis.tsx:26 | the percentage times the total is 100 times the part; within 0..100, and exactly 100 iff the part is the whole |
| RiskAnalysis.PercentScales | components/RiskAnalysis.tsx:26 | (part / total) * 100 scaled back by the total is 100 * part |
| RiskAnalysis.PercentFacts | components/RiskAnalysis.tsx:26 | any value satisfying the percentage equation lies in 0..100 and is 100 iff part equals total |
| RiskAnalysis.AttendanceRate | components/RiskAnalysis.tsx:24-27 | 100 without records; always within 0..100; exactly 100 iff every record of the student is a presence |
| RiskAnalysis.AttendanceRateValue | components/RiskAnalysis.tsx:25-26 | with records, the rate times the record count is 100 times the presences |
| RiskAnalysis.AttendanceRateFull | components/RiskAnalysis.tsx:24-27 | the rate is 100 iff every record for the student says present |
| RiskAnalysis.Classify | components/RiskAnalysis.tsx:32-35 | Crítico iff average < 6, rate < 60 or a wellbeing alert; Alto iff not critical and average < 7.5 or rate < 80; Bajo iff average >= 8.5, rate >= 80 and no alert |
| RiskAnalysis.Weight | components/RiskAnalysis.tsx:39 | Crítico weighs 3, Alto 2, Medio 1 and Bajo 0, each weight belonging to exactly that tier |
| RiskAnalysis.Assess | components/RiskAnalysis.tsx:18-37 | the row keeps the student, its average is that student's own grade average and its rate that student's own attendance rate, its tier is the classification of its own average, rate and alert, and the alert is the profile's "Alerta (Carga Alta)" |
| RiskAnalysis.Assessments | components/RiskAnalysis.tsx:18-37 | one row per student, in census order, each the assessment of that student |
| RiskAnalysis.StudentsWithRiskSpec | components/RiskAnalysis.tsx:38-41 | the ranked list is a permutation of the rows, sorted by descending weight, and rows of equal weight keep census order |
| RiskAnalysis.CriticalFirst | components/RiskAnalysis.tsx:38-41 | in the ranking every row above a Crítico row is Crítico, and every row below a Bajo row is Bajo |
| RiskAnalysis.StudentsWithRiskMembers | components/RiskAnalysis.tsx:18-41 | every ranked row is the assessment of a student in the census, and every student's assessment is ranked |
| RiskAnalysis.ClassifyMonotone | components/RiskAnalysis.tsx:32-35 | a better average and a better attendance rate never give a heavier tier |
| RiskAnalysis.ClassifyExamples | components/RiskAnalysis.tsx:32-35 | boundary cases of each threshold land in the tier the chain assigns |
| RiskAnalysis.NoDataStudent | components/RiskAnalysis.tsx:20-29 | a student with no grades and no attendance gets 10 and 100, so is Bajo unless the wellbeing alert makes them Crítico |
| Sorting.SortDescSorted | components/RiskAnalysis.tsx:38-41 | the stable sort yields a list sorted by descending key that is a permutation of its input |
| Sorting.SortDescStable | components/RiskAnalysis.tsx:38-41 | elements with the same key come out in their input order |
| AttendanceTracker.Lookup | components/AttendanceTracker.tsx:16-21 | the dictionary read finds nothing iff no entry has the key, and otherwise returns an entry's status |
| AttendanceTracker.Put | components/AttendanceTracker.tsx:25 | assignment to a present key overwrites it in place; to a new key appends it at the end |
| AttendanceTracker.LookupAt | components/AttendanceTracker.tsx:16-21 | with distinct keys, reading an entry's key yields that entry's status |
| AttendanceTracker.PutDistinct | components/AttendanceTracker.tsx:25 | assignment keeps the keys distinct |
| AttendanceTracker.PutLookupSame | components/AttendanceTracker.tsx:25 | after assignment the key reads the new status |
| AttendanceTracker.PutLookupOther | components/AttendanceTracker.tsx:25 | assignment leaves every other key's status as it was |
| AttendanceTracker.InitialStatusSpec | components/AttendanceTracker.tsx:18-19 | a student's initial status is that of the first record for them on that date, and present if there is none |
| AttendanceTracker.InitialMapKeys | components/AttendanceTracker.tsx:16-22 | the initial dictionary has distinct keys, all of them student ids |
| AttendanceTracker.InitialMapValues | components/AttendanceTracker.tsx:16-22 | every student's key reads their initial status |
| AttendanceTracker.InitialMapStep | components/AttendanceTracker.tsx:17-20 | the status read for the i-th student is their initial status, even with repeated ids |
| AttendanceTracker.InitialStatuses | components/AttendanceTracker.tsx:16-22 | the reduce loop builds the initial dictionary: distinct keys, each student reading their initial status |
| AttendanceTracker.Batch | components/AttendanceTracker.tsx:30-34 | one record per dictionary entry, in entry order, with the entry's student and status and the sheet's date |
| AttendanceTracker.AbsenceCount | components/AttendanceTracker.tsx:41-44 | the count of absences always includes the one being saved |
| AttendanceTracker.NotificationForSpec | components/AttendanceTracker.tsx:40-58 | at most one alert per record; one iff it is an absence, the count reaches the threshold and the student exists; the alert carries the first matching student's name, tutor email and career with the count |
| AttendanceTracker.NotificationsForStep | components/AttendanceTracker.tsx:39-60 | the alerts of a longer prefix of the batch are those of the shorter one followed by the next record's |
| AttendanceTracker.Save | components/AttendanceTracker.tsx:36-60 | the save loop emits the batch to the parent first, then one POST per alert, to the configured URL, and only when automation is enabled with a URL |
| AttendanceTracker.NotificationsSound | components/AttendanceTracker.tsx:38-58 | every alert sent comes from an absence in the batch whose count reached the threshold, and only when automation is enabled with a URL |
| AttendanceTracker.NotificationsForSound | components/AttendanceTracker.tsx:39-58 | every alert computed for a batch comes from one of its absences of a known student at or over the threshold |
| AttendanceTracker.SameDateNotCounted | components/AttendanceTracker.tsx:42 | records of the sheet's own date never add to the count |
| AttendanceTracker.DuplicateSaveCountsTwice | components/AttendanceTracker.tsx:42 | an earlier absence stored twice is counted twice |
| AttendanceTracker.ThresholdExample | components/AttendanceTracker.tsx:38-58 | with threshold 3, a third absence after two earlier ones sends one alert with a count of 3, and after only one earlier absence it sends none |
| TeacherEvaluations.TeacherAvg | components/TeacherEvaluation.tsx:19-22 | 0 for a teacher without evaluations; otherwise the average times the count is the sum of the evaluations' means |
| TeacherEvaluations.Stats | components/TeacherEvaluation.tsx:18-23 | one statistic per teacher, in list order |
| TeacherEvaluations.TeacherStatsRanking | components/TeacherEvaluation.tsx:24 | the ranking is a permutation of the statistics sorted by descending average |
| TeacherEvaluations.EvaluationCounted | components/TeacherEvaluation.tsx:19 | an evaluation counts for a teacher iff it names their id; one naming no listed teacher counts for no one |
| TeacherEvaluations.EvalMeanInRange | components/TeacherEvaluation.tsx:21 | an evaluation with 1-5 stars on each criterion has a mean in 1..5 |
| TeacherEvaluations.TeacherAvgInRange | components/TeacherEvaluation.tsx:19-22 | a teacher with evaluations, all in the star range, averages within 1..5 |
| TeacherEvaluations.MeanBounds | components/TeacherEvaluation.tsx:21 | a mean of values within bounds lies within them |
| TeacherEvaluations.BestTeacher | components/TeacherEvaluation.tsx:26 | there is no best teacher iff there are no teachers |
| TeacherEvaluations.BestTeacherIsFirstMaximum | components/TeacherEvaluation.tsx:24-26 | the best teacher has the highest average, and no earlier-listed teacher ties it |
| TeacherEvaluations.GlobalTeacherAvgIsMean | components/TeacherEvaluation.tsx:27-29 | 0 without teachers; otherwise the mean of the teachers' averages |
| TeacherEvaluations.TeacherStatsSum | components/TeacherEvaluation.tsx:24-28 | sorting leaves the number and the sum of the averages unchanged |
| TeacherEvaluations.SumMapStats | components/TeacherEvaluation.tsx:18-23 | summing the statistics' averages is summing each teacher's average |
| TeacherEvaluations.CriticalReports | components/TeacherEvaluation.tsx:109 | the count of critical teachers never exceeds the number of teachers |
| TeacherEvaluations.CriticalReportsSpec | components/TeacherEvaluation.tsx:109 | it counts the statistics strictly between 0 and 3, so a teacher without evaluations is never critical |
| TeacherEvaluations.InitialForm | components/TeacherEvaluation.tsx:14-16 | the blank form's stars are within 1..5 |
| TeacherEvaluations.SetScore | components/TeacherEvaluation.tsx:57 | clicking a star within 1..5 keeps every criterion within 1..5 |
| TeacherEvaluations.Submit | components/TeacherEvaluation.tsx:31-49 | without a selected teacher nothing is recorded and the form stays; otherwise the evaluation carries the teacher, the anonymous student, the scores, the comment, the current period and the date part of the timestamp, and the teacher and comment are cleared while the ratings stay |
| TeacherEvaluations.Reverse | components/TeacherEvaluation.tsx:120 | the reversal has the same length and mirrors the positions |
| TeacherEvaluations.RecentOpinions | components/TeacherEvaluation.tsx:120 | at most the last six evaluations, newest first |
| FinanceManagement.ToggleBlock | components/FinanceManagement.tsx:12-21 | a student without a financial record is left alone; otherwise only the block flag flips |
| FinanceManagement.ToggleBlockTwice | components/FinanceManagement.tsx:12-21 | toggling twice restores the student |
| FinanceManagement.ToggleKeepsDebt | components/FinanceManagement.tsx:12-21 | toggling keeps the debt, its amount and the scholarship, and inverts the blocked status |
| FinanceManagement.Stats | components/FinanceManagement.tsx:23-28 | each headcount is at most the number of students |
| FinanceManagement.StatsEmpty | components/FinanceManagement.tsx:23-28 | with no students the total is 0 and every headcount is 0 |
| FinanceManagement.StatsAppend | components/FinanceManagement.tsx:23-28 | one more student adds their recorded amount (0 without a financial record, whatever the debt flag) to the total, and one to each headcount whose flag they carry |
| FinanceManagement.StatsMembers | components/FinanceManagement.tsx:25-27 | the debtors, scholarship holders and blocked students counted are exactly the listed students carrying that flag |
| FinanceManagement.DebtColumn | components/FinanceManagement.tsx:88 | a debtor's row shows their amount; anyone else shows nothing |
| FinanceManagement.TotalDebtCoversColumn | components/FinanceManagement.tsx:24 | the total sums every amount, so it covers the debtors' column and exceeds it whenever a non-debtor has an amount |
| Dashboard.GlobalAvgGrade | components/Dashboard.tsx:16-18 | 0 without grades; otherwise the mean times the number of grades is the sum of all scores |
| Dashboard.GlobalAvgGradeBounds | components/Dashboard.tsx:16-18 | "0.0" without grades; otherwise the mean lies within any bounds of the scores |
| Dashboard.QuotientBounds | components/Dashboard.tsx:17 | a sum of n values within bounds, divided by n, lies within them |
| Dashboard.NoGradesSentinels | components/Dashboard.tsx:16-18 | with no grades the dashboard shows 0 while the risk screen gives every student 10 |
| Dashboard.GlobalAttendanceRate | components/Dashboard.tsx:20-22 | 100 without records; otherwise the rate times the number of records is 100 times the presences; always within 0..100, and 100 iff every record is a presence |
| Dashboard.Debtors | components/Dashboard.tsx:24 | the debtor count is the finance screen's debt headcount, at most the census |
| Dashboard.PieSlices | components/Dashboard.tsx:131-132 | the two slices, regular and in arrears, are non-negative and add up to the census |
| Dashboard.Morosity | components/Dashboard.tsx:149 | the arrears figure is 3200 times the number of debtors, so at most 3200 per student |
| Dashboard.Careers | components/Dashboard.tsx:26-27 | the career of each student, in census order |
| Dashboard.HistogramNames | components/Dashboard.tsx:26-31 | the histogram names each career of the census exactly once |
| Dashboard.HistogramCounts | components/Dashboard.tsx:26-31 | each bar's value is the number of students in that career |
| Dashboard.HistogramTotal | components/Dashboard.tsx:26-31 | the bars add up to the census |
| Dashboard.HistogramOrder | components/Dashboard.tsx:26-31 | bars appear in the order their careers first occur |
| Dashboard.CareerData | components/Dashboard.tsx:26-31 | the reduce loop builds the histogram, with distinct names, summing to the census |
| GradesTracker.Buckets | components/GradesTracker.tsx:34-38 | each bucket counts the grades below 6, from 6 to below 8, and from 8 |
| GradesTracker.BucketsDisjoint | components/GradesTracker.tsx:34-38 | every grade falls in exactly one bucket |
| GradesTracker.BucketsTotal | components/GradesTracker.tsx:34-38 | the three buckets add up to the number of grades |
| GradesTracker.CountsPartition | components/GradesTracker.tsx:34-38 | the three counts partition the grades |
| GradesTracker.BlankForm | components/GradesTracker.tsx:25-31 | an empty form for "Teoría del Derecho", score 0, dated today |
| GradesTracker.Submit | components/GradesTracker.tsx:40-56 | without a student nothing is recorded; otherwise the grade carries the form's fields under the fresh id and the form resets |
| GradesTracker.PassingNotFailing | components/GradesTracker.tsx:209 | a passing badge is exactly a grade outside the critical bucket |
| GradesTracker.RowBlocked | components/GradesTracker.tsx:192-193 | a row shows the lock only if its student exists and is blocked |
| GradesTracker.RowBlockedFirst | components/GradesTracker.tsx:192-193 | the lock follows the first student with the grade's id |
| StudentPortal.MyGrades | components/StudentPortal.tsx:31 | every grade listed is the student's own |
| StudentPortal.MyGradesSpec | components/StudentPortal.tsx:31 | exactly the student's grades, in the order stored |
| StudentPortal.GpaVersusRisk | components/StudentPortal.tsx:40-42 | with grades the GPA is the risk screen's average; without, the portal shows 0 while the risk screen uses 10 |
| StudentPortal.GpaRange | components/StudentPortal.tsx:40-42 | with scores in 0..10 the GPA lies in 0..10 |
| StudentPortal.MySchedules | components/StudentPortal.tsx:34-38 | only schedules whose subject exists and belongs to the student's career, each with that subject's name |
| StudentPortal.MySchedulesSpec | components/StudentPortal.tsx:34-38 | the schedules shown are exactly the offered ones, in order |
| StudentPortal.View | components/StudentPortal.tsx:29-44 | the error page iff no student has the id; otherwise the first student with that id, with their grades, schedules and GPA, and the transcript hidden iff they are blocked |
| InitialAssessment.GroupsMatchCategories | components/InitialAssessment.tsx:26-37 | the question groups tallied are exactly the questions of each category |
| InitialAssessment.Bump | components/InitialAssessment.tsx:57 | a vote raises its letter's count by one and no other |
| InitialAssessment.TallyTotal | components/InitialAssessment.tsx:55-58 | the votes counted are the group's answered questions |
| InitialAssessment.Winner | components/InitialAssessment.tsx:59 | the winner has the highest count, and ties go to the earlier letter |
| InitialAssessment.UnansweredVotesA | components/InitialAssessment.tsx:55-59 | a group with no answers picks A |
| InitialAssessment.GetWinner | components/InitialAssessment.tsx:54-60 | the counting loop returns the winner of the tally |
| InitialAssessment.Results | components/InitialAssessment.tsx:62-73 | each trait is the label of its group's winner, stamped with the completion time |
| InitialAssessment.WellbeingAlertIffBothC | components/InitialAssessment.tsx:65-71 | the wellbeing alert is raised iff both wellbeing questions were answered C |
| InitialAssessment.CalculateResults | components/InitialAssessment.tsx:53-76 | the method returns the profile the results function describes |
| InitialAssessment.Assessment.constructor | components/InitialAssessment.tsx:40-41 | the wizard starts at question 0 with no answers |
| InitialAssessment.Assessment.Select | components/InitialAssessment.tsx:43-51 | an answer is recorded for the current question; the wizard advances, or on the last question returns the profile with every question answered |
| ExportTool.Select | components/ExportTool.tsx:12-29 | each export's headers, filename and one row per record, every row as wide as the header |
| ExportTool.CsvRoundTrip | components/ExportTool.tsx:31-34 | with no commas or newlines in cells, splitting the file recovers the header and every row |
| ExportTool.JoinAvoids | components/ExportTool.tsx:31-34 | joining cells introduces no character other than the separator |
| ExportTool.CommaAddsColumns | components/ExportTool.tsx:33 | a cell containing a comma makes the line split into more columns than it had |
| ExportTool.SplitCount | components/ExportTool.tsx:31-34 | splitting yields one more piece than there are separators |
| ExportTool.JoinCount | components/ExportTool.tsx:31-34 | joining adds a separator between each pair of cells |
| ExportTool.OccurrencesConcat | components/ExportTool.tsx:31-34 | separator counts add over concatenation |
| ExportTool.OccursIn | components/ExportTool.tsx:33 | a character present occurs at least once |
| Text.SplitJoin | components/ExportTool.tsx:31-34 | splitting what was joined from separator-free cells restores them |
| Login.Submit | components/Login.tsx:19-50 | the administrator iff the credentials match; a student only with their own id as password; a teacher only when the list is given; a crash iff a teacher lookup is reached without the list |
| Login.SubmitWithTeachers | components/Login.tsx:19-50 | given the teacher list the handler never crashes, and rejects iff no rule matches |
| Login.StudentSignsIn | components/Login.tsx:33-37 | the first student with that email, entering their id, signs in as a student |
| Login.WrongStudentPasswordFallsThrough | components/Login.tsx:34-45 | a student email with a wrong password falls through to the teacher rule |
| Login.EmailNormalised | components/Login.tsx:25 | emails that differ only in case or surrounding spaces give the same outcome |
| Text.ToLowerIdempotent | components/StudentList.tsx:46-47 | lower-casing twice is lower-casing once |
| Text.TrimProperties | components/Login.tsx:25 | trimming returns a slice of the input with no whitespace at either end |
| Text.ParseIntDecimal | components/AutomationSettings.tsx:82 | parseInt reads a decimal numeral back as its value |
| Text.ParseIntNegativeDecimal | components/AutomationSettings.tsx:82 | parseInt reads a minus sign and a numeral as the negative value |
| Text.DatePartOfTimestamp | components/Announcements.tsx:65 | the date part of an ISO timestamp is its first ten characters |
| Announcements.VisibleToStaff | components/Announcements.tsx:38-42 | staff see every announcement |
| Announcements.VisibleToOthers | components/Announcements.tsx:38-42 | anyone else sees exactly the announcements that target their role |
| Announcements.VisibleOrder | components/Announcements.tsx:42 | the list is newest first, and notices of the same date keep their stored order |
| Announcements.BlankForm | components/Announcements.tsx:31-36 | the form starts addressed to students, in the first category |
| Announcements.ToggleRole | components/Announcements.tsx:74-81 | the clicked role changes membership, and no other role does |
| Announcements.ToggleRoleTwice | components/Announcements.tsx:74-81 | adding a role and removing it again restores the list |
| Announcements.ToggleRoleRemoves | components/Announcements.tsx:77-78 | removing a role keeps the others in order and shortens the list |
| Announcements.Submit | components/Announcements.tsx:60-72 | the notice carries the form, today's date and the attached PDF if any; the form and the attachment are cleared |
| Announcements.SubmitDate | components/Announcements.tsx:65 | the notice's date is the first ten characters of the timestamp |
| Announcements.BadgeFor | components/Announcements.tsx:234 | a known category keeps its badge; any other falls back to the first |
| StudentList.FilteredSpec | components/StudentList.tsx:45-51 | a student is listed iff the term matches the name or group, ignoring case, and the career and modality filters, when set, match; order is kept |
| StudentList.NoFilterListsAll | components/StudentList.tsx:45-51 | with every filter empty the whole census is listed |
| StudentList.SearchIgnoresCase | components/StudentList.tsx:46-47 | a search term and its lower-case form list the same students |
| StudentList.BlankForm | components/StudentList.tsx:32-43 | the form starts on the first career, in person, with no scholarship and no debt |
| StudentList.Enrol | components/StudentList.tsx:53-89 | the new record has id "st-" plus the suffix, copies the form, is blocked with debt iff an initial debt was declared, and holds the two pending documents; the form resets |
| StudentList.EnrolFinance | components/StudentList.tsx:58-65 | the finance screen sees the new student as blocked and in debt iff an initial debt was declared, with a scholarship iff one was declared |
| StaffManagement.FilteredSpec | components/StaffManagement.tsx:32-35 | a teacher is listed iff the term matches name or subject, ignoring case, in census order |
| StaffManagement.EmptyTermListsAll | components/StaffManagement.tsx:32-35 | an empty term lists every teacher |
| StaffManagement.BlankForm | components/StaffManagement.tsx:25-30 | the form starts empty on the first department |
| StaffManagement.Register | components/StaffManagement.tsx:37-48 | the record has id "t-" plus the suffix and the form's fields; the form resets |
| StaffManagement.RegisteredIsFound | components/StaffManagement.tsx:32-48 | a newly registered teacher is found by searching their name |
| ExamManager.BlankForm | components/ExamManager.tsx:21-26 | the draft starts untitled, on "Derecho Penal I", for the first career, with no questions |
| ExamManager.Generate | components/ExamManager.tsx:28-38 | an alert and no request without a subject; an alert when the generator returns nothing; otherwise the batch is appended |
| ExamManager.GenerateAppends | components/ExamManager.tsx:33 | existing questions keep their place and the batch follows them |
| ExamManager.Submit | components/ExamManager.tsx:40-53 | a draft without questions is refused; otherwise a published exam with the draft's contents, stamped now, and the draft resets |
| ExamManager.GeneratedCanBePublished | components/ExamManager.tsx:28-53 | after a successful generation the draft can be published with every generated question |
| ExamManager.RemoveQuestionSpec | components/ExamManager.tsx:132 | deleting removes exactly the questions with that id, keeps the rest in order, and an unknown id changes nothing |
| AutomationSettingsView.SetEnabled | components/AutomationSettings.tsx:55 | the switch replaces the enabled flag only |
| AutomationSettingsView.SetWebhookUrl | components/AutomationSettings.tsx:69 | the box replaces the URL only |
| AutomationSettingsView.ThresholdOf | components/AutomationSettings.tsx:82 | never 0: a non-zero parsed number is kept, and no number or 0 becomes 1 |
| AutomationSettingsView.SetThreshold | components/AutomationSettings.tsx:82 | the box replaces the threshold only |
| AutomationSettingsView.ThresholdPositive | components/AutomationSettings.tsx:82 | a positive count typed in decimal is stored as typed |
| AutomationSettingsView.ThresholdNegative | components/AutomationSettings.tsx:78-82 | a negative count is stored too, since nothing enforces the box's minimum |
| AutomationSettingsView.ThresholdFallback | components/AutomationSettings.tsx:82 | "0" and an empty box both store 1 |
| AutomationSettingsView.LowThresholdAlertsEveryAbsence | components/AutomationSettings.tsx:78-82 | with a threshold of 1 or less, every absence of a known student raises exactly one alert |
| Layout.NavItemsMember | components/Layout.tsx:50 | an entry is in the sidebar iff the signed-in role is among its roles |
| Layout.NavItemsOrder | components/Layout.tsx:50 | the sidebar keeps the table's order |
| Layout.AllItemsComplete | components/Layout.tsx:34-48 | every screen has exactly one row in the table |
| Layout.AlumnoSidebar | components/Layout.tsx:34-50 | a student sees notices, their record, exams and the teacher survey, in that order |
| Layout.FinancesOnlyForControl | components/Layout.tsx:43 | only control escolar sees the finance entry |
| Layout.StudentPortalOnlyForAlumno | components/Layout.tsx:37 | only students see the student-record entry |
| Layout.AnnouncementsForAll | components/Layout.tsx:36 | every role sees the announcements entry |
| Layout.RoleLabel | components/Layout.tsx:52-57 | every role has a non-empty caption |
| Layout.RoleLabelsDistinct | components/Layout.tsx:52-57 | no two roles share a caption |
| App.WithStudent | App.tsx:59 | the student is appended and nothing else changes |
| App.WithoutStudent | App.tsx:59 | no student with the id remains and nothing else changes |
| App.WithoutStudentSpec | App.tsx:59 | exactly the students with other ids remain, in order |
| App.AddThenRemoveStudent | App.tsx:59 | adding a student and removing their id is the same as just removing the id |
| App.WithAttendance | App.tsx:60 | the batch is appended after the stored records and nothing else changes |
| App.SavedTwiceCountsTwice | App.tsx:60 | an absence saved twice through the shell is counted twice by later alerts |
| App.WithExam | App.tsx:61 | the exam goes first and nothing else changes |
| App.WithoutExam | App.tsx:61 | no exam with the id remains and nothing else changes |
| App.WithoutExamSpec | App.tsx:61 | exactly the exams with other ids remain, in order |
| App.AddThenRemoveExam | App.tsx:61 | adding an exam with a fresh id and removing it restores the state |
| App.WithGrade | App.tsx:62 | the grade goes first and nothing else changes |
| App.WithoutGrade | App.tsx:62 | no grade with the id remains and nothing else changes |
| App.WithoutGradeSpec | App.tsx:62 | exactly the grades with other ids remain, in order |
| App.AddThenRemoveGrade | App.tsx:62 | adding a grade with a fresh id and removing it restores the state |
| App.WithUpdatedStudent | App.tsx:63 | the census keeps its length and nothing else changes |
| App.WithUpdatedStudentSpec | App.tsx:63 | every student with the id is replaced and the others kept; an unknown id changes nothing; updating twice is updating once |
| App.WithEvaluation | App.tsx:66 | the evaluation is appended and nothing else changes |
| App.ApplyKeepsSession | App.tsx:59-66 | no screen callback changes the session, the automation settings or the teachers |
| App.AnnouncementsOpensDashboard | App.tsx:55-69 | a student's sidebar offers Comunicados, yet the switch opens the dashboard for it, a screen absent from the student's sidebar |
| App.AnnouncementsAsWritten | App.tsx:55-69 | the switch as written maps the announcements id to the dashboard |
| App.ScreenOfTab | App.tsx:55-69 | with the missing case added, every sidebar id opens its own screen |
| App.ScreenAsWrittenAgrees | App.tsx:55-69 | apart from announcements, the switch as written opens each id's own screen |
| App.UnknownTabShowsDashboard | App.tsx:68 | an id no entry has shows the dashboard |
| App.LoginOutcome | App.tsx:72-74 | with the teacher list passed, login never crashes |
| App.TeacherLoginCrashesAsWritten | App.tsx:73 | a teacher entering their own email and id crashes the login as written, and signs in as maestro once the list is passed |
| App.Shell.constructor | App.tsx:22-24 | logged out, on the dashboard, with the initial state |
| App.Shell.HandleLogin | App.tsx:35-39 | stores the role and student id, logs in, and lands students on their record and others on the dashboard |
| App.Shell.HandleLogout | App.tsx:41-43 | only the logged-in flag changes |
| App.Shell.SetActiveTab | App.tsx:24 | only the active tab changes |
| App.Shell.Dispatch | App.tsx:59-66 | the state becomes the callback's result and nothing else changes |
| App.Shell.SubmitLogin | App.tsx:72-74 | the outcome is the login rules' with the teacher list passed; a successful login goes through handleLogin: it updates the session, logs in and lands students on their record and others on the dashboard; a rejected one changes nothing |
| App.StudentLoginFindsRecord | App.tsx:35-39 | a student who signs in gets an id whose record page finds them |

## Left out

- The AI features are not part of this model: the dropout analysis (components/RiskAnalysis.tsx:43-49), the insights screen (components/AIInsights.tsx) and services/geminiService.ts, which calls a language model. The exam builder's question generator is a parameter of `ExamManager.Generate`.
- The persistence layer and the build configuration are not part of this model: the database client in lib/supabase.ts and vite.config.ts.
- Webhook delivery is not modelled: the POST is an effect value with its payload, and network failures (the `try`/`catch`) are left out.
- Local storage and the reset button are left out (App.tsx:25-33, App.tsx:45-52): they need the browser's storage and `window.confirm`.
- The login delay (components/Login.tsx:24) is left out, and so is the settings screen's "saved" banner timer (components/AutomationSettings.tsx:15-22). The handler is modelled as if the timer had fired.
- Reading the PDF file (FileReader), downloading it, and the CSV Blob download are not modelled. A chosen PDF is a value `Attachment(name, data)`, and the export stops at the CSV text.
- Number formatting (`toFixed`, `toLocaleString`) and IEEE floating point are not modelled. Averages and rates are exact reals, and `ExportTool.Select` takes the score formatter as a parameter.
- Random ids (`Math.random`), `new Date()` and the administrator's email and password literal (components/Login.tsx:28) are parameters.
- AcademicManagement and the seed data in mockData.ts are not part of this model. They only display or supply data.
- Rendering is not modelled: JSX, CSS and the charts are out, apart from the values the charts are given.
- Announcements, teacher registration and automation settings are not reachable from App.tsx. The shell neither renders these screens nor has a callback that changes the teacher list, announcements or settings, so the model keeps their handlers as functions without wiring them into `App.Apply`.
- Deleting an announcement or a teacher is left out: their components only call the parent's callback, which App.tsx never supplies.
- AttendanceTracker.Save: a `fetch` started with `await` inside the loop is modelled as emitted in loop order; interleaving with other events is left out.
- AttendanceTracker.Save: a delivery that fails is caught and ignored by the source, so the model emits every POST and does not represent failures.
- GradesTracker.Buckets: scores are exact reals, so the `NaN` that `parseFloat` gives for an empty score box (components/GradesTracker.tsx:111) is not modelled; such a grade would fall in no bucket, and the buckets would then sum to less than the number of grades.
- Text.LowerChar: lower-cases only A-Z and the Latin-1 capitals À-Þ (except ×), which cover Spanish; JavaScript's `toLowerCase` also maps every other cased letter (Ā to ā, Greek, Cyrillic), so for such letters `Login.NormalEmail` and the searches of StudentList and StaffManagement compare differently from the source.
- Text: a Dafny `char` is a Unicode scalar value while a JavaScript string counts UTF-16 code units, so a character outside the Basic Multilingual Plane has length 1 here and 2 in the source; no modelled rule depends on such lengths.
- AttendanceTracker.Batch: `Object.entries` lists integer-like keys (such as "12") first, in ascending numeric order, and only then the other keys in insertion order; the model keeps insertion order for every key, so a batch for students whose ids are plain numbers is ordered differently. The set of records and their contents are unaffected.
- Types.Teacher carries an `email` field although types.ts does not declare one. The login screen reads it and the seed data supplies it.

## Findings

| source | as written | input that shows it | evidently intended | confidence | as-written member | corrected member |
|---|---|---|---|---|---|---|
| App.tsx:73 with components/Login.tsx:41 | the login screen is rendered without its `teachers` prop, so the teacher rule calls `find` on `undefined` and throws | a teacher's own email with their id as password, when no student has that email and it is not the administrator's | the teacher list is passed and the teacher signs in as maestro | not executed | App.TeacherLoginCrashesAsWritten | App.LoginOutcome |
| App.tsx:55-69 with components/Layout.tsx:36 | the screen switch has no 'announcements' case, so the Comunicados entry every role sees falls to the default and shows the dashboard | a student clicks Comunicados in the sidebar | the announcements board is shown | not executed | App.AnnouncementsOpensDashboard | App.ScreenOfTab |
