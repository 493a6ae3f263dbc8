# TAC Media admin dashboard, modelled in Dafny

The TAC Media site is the admin dashboard of a church media team. Its pages cover six areas:
- the team schedule: a calendar and a list of services, a sidebar of volunteers, and the dialog that assigns volunteers to the roles of a service;
- the media library: filters, statistics, selection, upload and delete;
- the communication centre: announcements with a filter pipeline, four sort orders, a compose form with its rules, and a recipient picker;
- user management: a filter, a sortable table, a detail panel and an invitation form with their validators, the role permission matrix, and the activity log;
- the dashboard landing page: quick actions by role, metrics, notifications, announcements and recent activity;
- the login redirect, the breadcrumb trail and the header's notification bell.

Every page works on in-memory records and keeps them in component state. The model follows the
program's structure: one Dafny module per component or page, plus shared modules.
- `Optional` and `Text` hold strings, ASCII lower-casing, substring search, trimming and lexicographic order.
- `Seqs` holds filter, map, a stable insertion sort and toggling.
- `Dates` holds Gregorian dates, day numbers and weekdays. `IsoDate` holds `YYYY-MM-DD` keys and day bounds in milliseconds.
- `Scheduling`, `FormRules` and `TimeAgo` hold the service records, the shared form rules and the relative-time texts.

Pure code (filters, comparators, lookups, validators) becomes functions with lemmas about them.
Component state that handlers update becomes a class whose fields are that state. Its methods
`modifies this` and state the new state through those functions.

The following are parameters, never read by the model:
- the current time, as integer milliseconds;
- the answers of `window.confirm`;
- the ids made from `Date.now()`;
- the signed-in person;
- whether the invitation callback `onInvite` throws.

## Model

Every row names a member, the lines of the component it models, and what its contract states.

| member | source | states |
|---|---|---|
| IsoDate.Format | src/pages/team-scheduling/components/CalendarView.jsx:44 | a day key has ten characters, four year digits, two month digits and two day digits separated by dashes |
| IsoDate.Parse | src/pages/communication-center/index.jsx:165-171 | a date filter value reads only to a real calendar day with a four-digit year |
| IsoDate.ParseFormat | src/pages/communication-center/index.jsx:163-173 | writing a day as a key and reading it back gives the same day |
| IsoDate.DayBounds | src/pages/communication-center/index.jsx:163-173 | against a written day, the lower bound admits exactly the times from its midnight on and the upper bound exactly the times up to its midnight |
| IsoDate.AtOrAfter | src/pages/media-library/index.jsx:181 | a time is at or after a day's midnight; a day that does not parse admits nothing; DayBounds states it for written days |
| IsoDate.AtOrBefore | src/pages/media-library/index.jsx:182 | a time is at or before a day's midnight; a day that does not parse admits nothing; DayBounds states it for written days |
| IsoDate.FormatInjective | src/pages/team-scheduling/components/CalendarView.jsx:42-46 | two days have the same key exactly when they are the same day |
| Dates.MonthLength | src/pages/team-scheduling/components/CalendarView.jsx:17-18 | the last day of the month lies between 28 and 31 and is 29 exactly for February of a leap year |
| Dates.Weekday | src/pages/team-scheduling/components/CalendarView.jsx:16-19 | `getDay()` of a date is a weekday index 0 (Sunday) to 6 |
| Dates.DayNumberOrder | src/pages/team-scheduling/components/CalendarView.jsx:122-124 | for real dates, a smaller day number means an earlier date and equal day numbers mean the same date, both ways |
| Dates.AddMonths | src/pages/team-scheduling/components/CalendarView.jsx:36-40 | `setMonth(getMonth() + delta)` gives a real date, keeps a day up to 28 and moves the month index by delta, and otherwise lands on the day that the target month's overflow gives |
| Dates.AddMonthsInverse | src/pages/team-scheduling/components/CalendarView.jsx:36-40 | moving by delta months and back by delta returns to the date whenever its day is at most 28 |
| Dates.MonthOverflowExample | src/pages/team-scheduling/components/CalendarView.jsx:36-40 | Previous from 31 March 2025 shows 3 March 2025, not February |
| CalendarView.DayZeroOfNextMonth | src/pages/team-scheduling/components/CalendarView.jsx:17-18 | `new Date(year, month + 1, 0)` is the same day as the last day of the month, December included |
| CalendarView.DaysInMonth | src/pages/team-scheduling/components/CalendarView.jsx:13-34 | the grid holds one blank per weekday before the 1st, then every day of the month in order, and at most 37 cells |
| CalendarView.Calendar.constructor | src/pages/team-scheduling/components/CalendarView.jsx:6 | the calendar opens on today's date |
| CalendarView.Calendar.Navigate | src/pages/team-scheduling/components/CalendarView.jsx:36-40 | the shown date becomes the month-shifted date and stays a real date |
| CalendarView.Calendar.GoToday | src/pages/team-scheduling/components/CalendarView.jsx:87 | the Today button shows today's date |
| CalendarView.PreviousThenNext | src/pages/team-scheduling/components/CalendarView.jsx:78-94 | Previous then Next returns to the same date when its day is at most 28; each button moves the month index by one |
| CalendarView.ServiceForDay | src/pages/team-scheduling/components/CalendarView.jsx:42-46 | a blank cell has no service; a found service is the first one on that date; none is found exactly when no service is on that date |
| CalendarView.FirstOn | src/pages/team-scheduling/components/CalendarView.jsx:45 | `find` on the date: the first service with that date, or none when no service has it |
| CalendarView.ConflictDot | src/pages/team-scheduling/components/CalendarView.jsx:48-61 | the conflict dot shows exactly when the day's service reports conflicts; the status is 'none' exactly on days without a service or without entries |
| CalendarView.ConflictCount | src/pages/team-scheduling/components/CalendarView.jsx:48-51 | the day's conflict count, zero without a service; ConflictDot states when the dot shows |
| CalendarView.DayStatus | src/pages/team-scheduling/components/CalendarView.jsx:53-61 | the day's staffing, none without a service; ConflictDot states when it is none |
| CalendarView.PastAndToday | src/pages/team-scheduling/components/CalendarView.jsx:122-124 | a cell is past exactly when its date is earlier than today and is today exactly when it is today's date; never both |
| CalendarView.IsToday | src/pages/team-scheduling/components/CalendarView.jsx:122 | the comparison of day numbers; PastAndToday states that it holds exactly on today's date |
| CalendarView.IsPast | src/pages/team-scheduling/components/CalendarView.jsx:124 | the comparison of day numbers; PastAndToday states that it holds exactly on earlier dates |
| Scheduling.StaffingOf | src/pages/team-scheduling/components/ListView.jsx:25-32 | 'none' exactly when nothing is assigned, 'partial' exactly when something is but fewer entries than required roles, 'complete' exactly when something is and the entries reach the role count |
| Scheduling.NoRolesCompleteOnceAssigned | src/pages/team-scheduling/components/CalendarView.jsx:54-61 | a service with no required roles counts as fully staffed as soon as one entry exists |
| Scheduling.Eligible | src/pages/team-scheduling/components/ListView.jsx:74-80 | keeps exactly the volunteers that have the role as a skill, are available on the service date and hold no entry of the service |
| Scheduling.FindVolunteer | src/pages/team-scheduling/components/ScheduleModal.jsx:32-35 | a found volunteer has the id and no earlier volunteer has it; nothing is found exactly when no volunteer has the id |
| Scheduling.FindAssignment | src/pages/team-scheduling/components/ScheduleModal.jsx:32-35 | a found entry is the first with that role id; nothing is found exactly when no entry has it |
| ListView.FilteredAndSorted | src/pages/team-scheduling/components/ListView.jsx:34-62 | the result is a reordering of exactly the services that pass both the filter mode and the search, each as often as in the list |
| ListView.PipelineKeeps | src/pages/team-scheduling/components/ListView.jsx:34-48 | the two filters in a row are one filter by both tests, in list order |
| ListView.PassesMode | src/pages/team-scheduling/components/ListView.jsx:34-45 | all keeps everything, upcoming keeps services whose midnight is not before now, understaffed keeps those not fully staffed, conflicts keeps those with conflicts; PipelineKeeps states what the filter keeps |
| ListView.MatchesSearch | src/pages/team-scheduling/components/ListView.jsx:46-48 | the name or the description contains the term, ignoring case |
| ListView.ServiceLePreorder | src/pages/team-scheduling/components/ListView.jsx:49-62 | each sort order's comparison is total and transitive |
| ListView.ServiceLe | src/pages/team-scheduling/components/ListView.jsx:49-62 | the comparator of each sort order; ServiceLePreorder, DateOrderIsCalendarOrder and StatusSortRanks state the orders |
| ListView.SortedResult | src/pages/team-scheduling/components/ListView.jsx:49-62 | the listed services are in the chosen sort order |
| ListView.DateOrderIsCalendarOrder | src/pages/team-scheduling/components/ListView.jsx:50-52 | sorting by date puts one service before another exactly when its date is the same or earlier |
| ListView.StatusKeysAlphabetical | src/pages/team-scheduling/components/ListView.jsx:56-60 | the status keys compare alphabetically: 'complete', then 'none', then 'partial' |
| ListView.StatusSortRanks | src/pages/team-scheduling/components/ListView.jsx:56-60 | in status order fully staffed services come first, then unstaffed ones, then partially staffed ones |
| ListView.StatusRank | src/pages/team-scheduling/components/ListView.jsx:56-60 | the place of each staffing in status order; StatusKeysAlphabetical and StatusSortRanks state it |
| ListView.ShowAllKeepsEverything | src/pages/team-scheduling/components/ListView.jsx:8-62 | with the default 'all' mode and an empty search every service is listed, only reordered |
| ListView.QuickAssignPicksFirst | src/pages/team-scheduling/components/ListView.jsx:199-230 | the Assign button shows exactly when the role has no entry and someone can fill it, and it proposes the first such volunteer in registry order |
| ListView.QuickAssign | src/pages/team-scheduling/components/ListView.jsx:199-230 | the volunteer the Assign button proposes; QuickAssignPicksFirst states when it shows and whom it picks |
| TeamSidebar.StatusOf | src/pages/team-scheduling/components/TeamSideBar.jsx:18-25 | conflicts win over assignments: 'busy' exactly for no conflicts and some upcoming assignments, 'available' exactly for neither |
| TeamSidebar.Filtered | src/pages/team-scheduling/components/TeamSideBar.jsx:27-35 | only volunteers whose name or e-mail contains the search ignoring case, of the chosen status when one is chosen, and every volunteer passing both |
| TeamSidebar.Passes | src/pages/team-scheduling/components/TeamSideBar.jsx:27-35 | the search matches, and the status is the chosen one unless all are chosen; Filtered states what the sidebar keeps |
| TeamSidebar.StatusFiltersPartition | src/pages/team-scheduling/components/TeamSideBar.jsx:11-35 | the three status filters together list exactly as many volunteers as 'all' |
| TeamSidebar.SkillIcon | src/pages/team-scheduling/components/TeamSideBar.jsx:37-48 | audio shows Volume2, video Video, lighting Lightbulb, streaming Wifi, photography Camera, graphics Image, social-media Share2, and any other skill Star |
| TeamSidebar.Rail | src/pages/team-scheduling/components/TeamSideBar.jsx:64 | the collapsed rail shows the first eight filtered volunteers, or all of them when fewer |
| ScheduleModal.WithoutRole | src/pages/team-scheduling/components/ScheduleModal.jsx:40 | the entries left all come from the buffer and none is for the role |
| ScheduleModal.WithoutRoleIdempotent | src/pages/team-scheduling/components/ScheduleModal.jsx:40-44 | removing a role's entries twice is removing them once |
| ScheduleModal.WithoutRoleKeepsOthers | src/pages/team-scheduling/components/ScheduleModal.jsx:40-44 | removing one role's entries keeps every other role's entries, in order |
| ScheduleModal.NoEntriesLeft | src/pages/team-scheduling/components/ScheduleModal.jsx:40 | after the removal no entry for the role is left |
| ScheduleModal.AssignSetsRole | src/pages/team-scheduling/components/ScheduleModal.jsx:37-48 | assigning a volunteer leaves exactly one entry for the role, naming that volunteer and placed last; other roles' entries are untouched |
| ScheduleModal.Assign | src/pages/team-scheduling/components/ScheduleModal.jsx:37-48 | a choice replaces the role's entries with one new entry; AssignSetsRole, AssignEmptyClearsRole, AssignKeepsOnePerRole and LastAssignWins state the result |
| ScheduleModal.AssignEmptyClearsRole | src/pages/team-scheduling/components/ScheduleModal.jsx:38-40 | the empty choice, or the falsy id 0, removes every entry for the role and nothing else |
| ScheduleModal.AssignKeepsOnePerRole | src/pages/team-scheduling/components/ScheduleModal.jsx:37-48 | a buffer with at most one entry per role keeps that shape through every assignment |
| ScheduleModal.LastAssignWins | src/pages/team-scheduling/components/ScheduleModal.jsx:37-48 | two assignments to one role in a row give what the second alone gives |
| ScheduleModal.AssignedAfterAssign | src/pages/team-scheduling/components/ScheduleModal.jsx:32-48 | after an assignment the role shows the first registered volunteer with that id; after clearing it shows nobody |
| ScheduleModal.AssignedVolunteer | src/pages/team-scheduling/components/ScheduleModal.jsx:32-35 | the volunteer named by the role's first entry; AssignedAfterAssign states what it shows after an assignment |
| ScheduleModal.DragCandidates | src/pages/team-scheduling/components/ScheduleModal.jsx:212-215 | the drag list holds exactly the volunteers available on the service date who hold no entry |
| ScheduleModal.OptionsShape | src/pages/team-scheduling/components/ScheduleModal.jsx:143-151 | the dropdown starts with 'Unassigned', lists the eligible volunteers in registry order, and ends with the current holder, who is never also among the eligible |
| ScheduleModal.VolunteerOptions | src/pages/team-scheduling/components/ScheduleModal.jsx:143-151 | the role's dropdown; OptionsShape states its layout |
| ScheduleModal.ConflictsOf | src/pages/team-scheduling/components/ScheduleModal.jsx:73-86 | at most one report per entry; every report names a volunteer an entry points at, with that volunteer's name and count; every conflicted volunteer an entry names is reported |
| ScheduleModal.ConflictsOfSingle | src/pages/team-scheduling/components/ScheduleModal.jsx:73-86 | one assignment is reported exactly as its own check reports it |
| ScheduleModal.ConflictsOfConcat | src/pages/team-scheduling/components/ScheduleModal.jsx:73-86 | the reports of two stretches of the buffer are the reports of the first followed by those of the second, so the reports follow the buffer order, one check per entry |
| ScheduleModal.DropWithoutSkillIsNoop | src/pages/team-scheduling/components/ScheduleModal.jsx:60-66 | a drop with nothing dragged, or a volunteer lacking the skill, leaves the buffer as it was |
| ScheduleModal.DropResult | src/pages/team-scheduling/components/ScheduleModal.jsx:60-66 | a drop assigns the dragged volunteer only when the volunteer has the role's skill; DropWithoutSkillIsNoop states the other case |
| ScheduleModal.Editor.constructor | src/pages/team-scheduling/components/ScheduleModal.jsx:7-9 | the buffer is seeded from the service given at mount, or empty; nothing is dragged |
| ScheduleModal.SeedBuffer | src/pages/team-scheduling/components/ScheduleModal.jsx:8 | the buffer starts as the service's assignments, or empty when there is no service |
| ScheduleModal.Editor.ReceiveProps | src/pages/team-scheduling/components/ScheduleModal.jsx:7-11 | new props replace the service, volunteers and open flag; the buffer and drag slot keep their values |
| ScheduleModal.Editor.Available | src/pages/team-scheduling/components/ScheduleModal.jsx:23-30 | without a service nobody is available; with one, exactly the registered volunteers who can fill the role on the service's date given the buffer |
| ScheduleModal.Editor.Rendered | src/pages/team-scheduling/components/ScheduleModal.jsx:11 | the dialog is drawn only while it is open and has a service |
| ScheduleModal.Editor.AssignVolunteer | src/pages/team-scheduling/components/ScheduleModal.jsx:37-48 | the buffer becomes the assignment result; nothing else changes |
| ScheduleModal.Editor.DragStart | src/pages/team-scheduling/components/ScheduleModal.jsx:50-53 | the dragged volunteer is remembered; nothing else changes |
| ScheduleModal.Editor.Drop | src/pages/team-scheduling/components/ScheduleModal.jsx:60-66 | a volunteer with the skill is assigned to the role; the drag slot is cleared either way |
| ScheduleModal.Editor.Save | src/pages/team-scheduling/components/ScheduleModal.jsx:68-71 | the service id and the whole buffer are handed over, conflicts or not, and the dialog closes with no service selected |
| ScheduleModal.Editor.GetConflicts | src/pages/team-scheduling/components/ScheduleModal.jsx:73-86 | the loop over the buffer builds exactly the conflict list |
| ScheduleModal.OpenFromPage | src/pages/team-scheduling/index.jsx:19-20 | a dialog mounted with no service and later handed the clicked one starts from an empty buffer, whatever that service already has |
| FormRules.ClearFieldError | src/pages/communication-center/components/ComposeAnnouncement.jsx:54-59 | editing a field removes its message (the key stays with an empty text) and leaves every other message as it was |
| FormRules.EmailCheckIsPattern | src/pages/user-management/components/UserDetailPanel.jsx:110 | the executable check on an address holds exactly when the address contains a match of the pattern: a non-space run, '@', a non-space run, '.', a non-space run |
| FormRules.CheckImpliesPattern | src/pages/user-management/components/UserDetailPanel.jsx:110 | a passing check exhibits a match of the pattern |
| FormRules.PatternImpliesCheck | src/pages/user-management/components/UserDetailPanel.jsx:110 | any match of the pattern makes the check pass |
| FormRules.CheckFindsMatch | src/pages/user-management/components/UserDetailPanel.jsx:110 | an '@' and a later '.' found by the check bound a match of the pattern |
| FormRules.MatchSatisfiesCheck | src/pages/user-management/components/UserDetailPanel.jsx:110 | the '@' and '.' of any match are positions the check accepts |
| FormRules.EmailExamples | src/pages/user-management/components/InviteUserModal.jsx:45 | "a@b.c" passes, while "a@b" and "@b.c" do not |
| FormRules.EmailError | src/pages/user-management/components/InviteUserModal.jsx:43-47 | a blank address gives "Email is required", a non-blank one that fails the pattern gives "Invalid email format", and only a non-blank matching one gives no message |
| FormRules.EmailAccepted | src/pages/user-management/components/UserDetailPanel.jsx:108-112 | an address gets no message exactly when it contains a match of the pattern (a match has no spaces, so it is never blank) |
| ComposeAnnouncement.OrElse | src/pages/communication-center/components/ComposeAnnouncement.jsx:10-16 | the "or else" default of a text field: a non-empty value is kept, the empty text gives the fallback |
| ComposeAnnouncement.SeedForm | src/pages/communication-center/components/ComposeAnnouncement.jsx:9-18 | a new announcement starts from the defaults; an edited one takes its title, content, recipients and schedule, keeps a non-empty category and priority and otherwise gets general and normal, and the seeded form holds no attachments (seeding happens once, at mount) |
| ComposeAnnouncement.ApplyChange | src/pages/communication-center/components/ComposeAnnouncement.jsx:48-52 | an input change leaves every other field and the attachments as they were |
| ComposeAnnouncement.ChangeTakesEffect | src/pages/communication-center/components/ComposeAnnouncement.jsx:48-52 | the changed field reads back as the new value, and repeating the same change changes nothing more |
| ComposeAnnouncement.RemoveAt | src/pages/communication-center/components/ComposeAnnouncement.jsx:70-75 | removing attachment `index` drops exactly that element and keeps the order of the rest; an index outside the list leaves it as it is |
| ComposeAnnouncement.RemoveUploaded | src/pages/communication-center/components/ComposeAnnouncement.jsx:62-75 | removing the attachment just uploaded gives back the list from before the upload |
| ComposeAnnouncement.ComposeErrors | src/pages/communication-center/components/ComposeAnnouncement.jsx:77-98 | a title or content message exactly when that text is blank after trimming, a recipients message exactly when none is chosen, a date message exactly when scheduled without a date, and no other key |
| ComposeAnnouncement.ComposeMessages | src/pages/communication-center/components/ComposeAnnouncement.jsx:77-98 | each failed rule is reported with its own message: title, content, recipients or scheduled date required |
| ComposeAnnouncement.ComposeValidIff | src/pages/communication-center/components/ComposeAnnouncement.jsx:77-98 | no messages exactly when title and content each have a non-space character, a recipient is chosen, and a scheduled post has a date |
| ComposeAnnouncement.UnscheduledNeedsNoDate | src/pages/communication-center/components/ComposeAnnouncement.jsx:92-94 | an unscheduled post is never refused for a missing date |
| ComposeAnnouncement.DefaultFormErrors | src/pages/communication-center/components/ComposeAnnouncement.jsx:9-98 | the untouched form fails exactly the title, content and recipients rules |
| ComposeAnnouncement.Composer.constructor | src/pages/communication-center/components/ComposeAnnouncement.jsx:8-20 | the editor's state starts as the seeded form with no messages |
| ComposeAnnouncement.Composer.InputChange | src/pages/communication-center/components/ComposeAnnouncement.jsx:48-60 | the form takes the change and only that field's message is cleared |
| ComposeAnnouncement.Composer.UploadFiles | src/pages/communication-center/components/ComposeAnnouncement.jsx:62-68 | the chosen files are appended to the attachments and nothing else changes |
| ComposeAnnouncement.Composer.RemoveAttachment | src/pages/communication-center/components/ComposeAnnouncement.jsx:70-75 | the attachments lose the element at `index` and nothing else changes |
| ComposeAnnouncement.Composer.Validate | src/pages/communication-center/components/ComposeAnnouncement.jsx:77-98 | the stored messages are those of the form, and the result is true exactly when the form is valid |
| ComposeAnnouncement.Composer.Reset | src/pages/communication-center/components/ComposeAnnouncement.jsx:110-119 | after a submission the form is back to the defaults and the messages stay |
| CommunicationCenter.AuthorSlug | src/pages/communication-center/index.jsx:158-160 | the author key keeps the name's length: the lower-cased name with one character replaced |
| CommunicationCenter.AuthorSlugFirstSpaceOnly | src/pages/communication-center/index.jsx:158-160 | a character of the key is '-' exactly when the name has '-' there or has its first space there; any later space stays a space |
| CommunicationCenter.Rank | src/pages/communication-center/index.jsx:183-184 | exactly urgent, high, normal and low have a rank, from 4 down to 1 |
| CommunicationCenter.StageStep | src/pages/communication-center/index.jsx:140-173 | applying one filter stage, when its value is set, to the list that passed the earlier stages gives the list passing all stages so far |
| CommunicationCenter.SixStages | src/pages/communication-center/index.jsx:140-173 | passing the six stages in turn is passing every set filter at once |
| CommunicationCenter.MatchesSearch | src/pages/communication-center/index.jsx:141-147 | the search term occurs, ignoring case, in the title, the content or the author's name |
| CommunicationCenter.Passes | src/pages/communication-center/index.jsx:140-173 | an announcement passes when it meets every filter that is set; SixStages states that this is the six stages applied in turn |
| CommunicationCenter.AllStagesArePasses | src/pages/communication-center/index.jsx:140-173 | keeping what passes all six stages keeps exactly what passes the combined filter |
| CommunicationCenter.StagedStart | src/pages/communication-center/index.jsx:138-139 | before any stage the copy is the whole list |
| CommunicationCenter.StagedStep | src/pages/communication-center/index.jsx:140-173 | each stage keeps the copy equal to the announcements passing the stages so far |
| CommunicationCenter.StagedIsFilter | src/pages/communication-center/index.jsx:140-173 | narrowing stage by stage keeps exactly, and in order, the announcements passing every set filter |
| CommunicationCenter.ApplyFilters | src/pages/communication-center/index.jsx:137-193 | the filter effect's result is the list narrowed by every set filter and then stably sorted by the chosen order |
| CommunicationCenter.VisibleMembers | src/pages/communication-center/index.jsx:137-193 | the list shown holds only announcements of the page that pass the filters, each of them, and none more often than stored |
| CommunicationCenter.Visible | src/pages/communication-center/index.jsx:137-193 | the narrowed and sorted list; VisibleMembers and VisibleSorted state its members and its order |
| CommunicationCenter.ClearedFiltersListAll | src/pages/communication-center/index.jsx:202-212 | with every filter cleared the list shown is a reordering of every announcement |
| CommunicationCenter.StatusIsIgnored | src/pages/communication-center/index.jsx:137-193 | the status filter's value never changes the list shown |
| CommunicationCenter.SetFilter | src/pages/communication-center/index.jsx:195-200 | a filter change sets exactly that key's value |
| CommunicationCenter.ClearingAFilterOnlyAdds | src/pages/communication-center/index.jsx:140-173 | clearing any one filter never hides an announcement that was shown |
| CommunicationCenter.DateBoundsInclusive | src/pages/communication-center/index.jsx:163-173 | an announcement at midnight of a day passes both bounds set to that day, and any later one on that day fails the upper bound |
| CommunicationCenter.OrderPreorder | src/pages/communication-center/index.jsx:176-190 | the newest, oldest and title comparators are total preorders, and the priority one is on lists of known priorities |
| Seqs.SortByStable | src/pages/communication-center/index.jsx:176-190 | the sort is stable: any class of elements that compare equal to one another comes out in its input order |
| CommunicationCenter.AnnouncementLe | src/pages/communication-center/index.jsx:176-190 | the comparator of each sort order; OrderPreorder, NewestFirst, OldestFirst, TitleOrder and PriorityOrder state the orders |
| CommunicationCenter.VisibleSorted | src/pages/communication-center/index.jsx:176-190 | the list shown is in the order of the chosen comparator |
| CommunicationCenter.NewestFirst | src/pages/communication-center/index.jsx:178-179 | 'newest' lists creation times from latest to earliest |
| CommunicationCenter.OldestFirst | src/pages/communication-center/index.jsx:180-181 | 'oldest' lists creation times from earliest to latest |
| CommunicationCenter.TitleOrder | src/pages/communication-center/index.jsx:185-186 | 'title' lists titles in string order |
| CommunicationCenter.PriorityOrder | src/pages/communication-center/index.jsx:182-184 | 'priority' lists urgent before high before normal before low when every priority is a known one |
| CommunicationCenter.WithoutId | src/pages/communication-center/index.jsx:224-228 | deleting keeps only announcements with another id, and every one of them, none more often than stored |
| CommunicationCenter.DeleteIdempotent | src/pages/communication-center/index.jsx:224-228 | deleting the same id twice is deleting it once |
| CommunicationCenter.Merge | src/pages/communication-center/index.jsx:233-237 | an edit keeps the id, author, creation time and read count, takes every form field and stamps the update time |
| CommunicationCenter.ApplyEdit | src/pages/communication-center/index.jsx:231-238 | an edit changes only the records with the edited id and keeps the list's length |
| CommunicationCenter.EditKeepsIds | src/pages/communication-center/index.jsx:231-238 | after an edit every position keeps its id and creation time |
| CommunicationCenter.Created | src/pages/communication-center/index.jsx:240-246 | a new record has the given id and time, the current user as author, no readers, the form's content and no update time |
| CommunicationCenter.AfterSubmit | src/pages/communication-center/index.jsx:230-249 | a submission without an edit puts the new record first ahead of the old list; one during an edit keeps the length |
| CommunicationCenter.CreatedIsListed | src/pages/communication-center/index.jsx:230-249 | with no filter set, a new announcement is in the list shown at once |
| CommunicationCenter.Board.constructor | src/pages/communication-center/index.jsx:13-27 | the page mounts with the seed list, no filters, newest first, the editor closed and the list shown up to date |
| CommunicationCenter.Board.Refresh | src/pages/communication-center/index.jsx:137-193 | the filter effect recomputes the list shown and changes nothing else |
| CommunicationCenter.Board.ChangeFilter | src/pages/communication-center/index.jsx:195-200 | a filter change sets that key, keeps the list and the order, and the list shown follows |
| CommunicationCenter.Board.ClearFilters | src/pages/communication-center/index.jsx:202-212 | clearing sets every filter back to empty and the list shown follows |
| CommunicationCenter.Board.ChangeSort | src/pages/communication-center/index.jsx:308-311 | choosing an order sets it and the list shown follows |
| CommunicationCenter.Board.NewAnnouncement | src/pages/communication-center/index.jsx:214-217 | a new announcement opens the editor with nothing being edited |
| CommunicationCenter.Board.EditAnnouncement | src/pages/communication-center/index.jsx:219-222 | editing marks that announcement as the save target and opens the editor; the compose form is not reloaded from it |
| CommunicationCenter.Board.CloseCompose | src/pages/communication-center/index.jsx:391-395 | closing the editor ends any edit |
| CommunicationCenter.Board.DeleteAnnouncement | src/pages/communication-center/index.jsx:224-228 | a confirmed delete removes that id, a refused one changes nothing, and the list shown follows |
| CommunicationCenter.Board.SubmitAnnouncement | src/pages/communication-center/index.jsx:230-249 | a submission replaces the list by its edited or extended version and the list shown follows |
| CommunicationCenter.SubmitCompose | src/pages/communication-center/components/ComposeAnnouncement.jsx:100-125 | the page's handler runs exactly when the form is valid; then the list is updated, the editor closes and the form resets, and otherwise nothing but the messages changes |
| CommunicationCenter.MountPage | src/pages/communication-center/index.jsx:389-397 | the editor is created while nothing is being edited, so its form starts from the defaults |
| AnnouncementCard.EditableAnnouncements | src/pages/communication-center/components/AnnouncementCard.jsx:48 | without a signed-in user no announcement is editable; an Admin or Media Lead may edit every announcement; anyone else exactly the announcements they wrote, in the list order |
| AnnouncementCard.OnlyAuthorsOrEditors | src/pages/communication-center/components/AnnouncementCard.jsx:48 | any other role may edit exactly the announcements it wrote |
| AnnouncementCard.PageUserEditsAll | src/pages/communication-center/components/AnnouncementCard.jsx:48 | the page's own user may edit every announcement |
| AnnouncementCard.ShortContentNeverExpands | src/pages/communication-center/components/AnnouncementCard.jsx:124-135 | for content of at most 200 characters no "Read more" is shown, so no sequence of clicks changes whether the card is expanded |
| AnnouncementCard.NoRightNoRequest | src/pages/communication-center/components/AnnouncementCard.jsx:83-118 | without the right to edit, no click on a shown control asks the page for an edit or a delete |
| AnnouncementCard.NoRightNoRequests | src/pages/communication-center/components/AnnouncementCard.jsx:83-118 | a user without the right to edit can click any sequence of shown controls and the page receives no edit or delete request at all |
| AnnouncementCard.MenuItemsClose | src/pages/communication-center/components/AnnouncementCard.jsx:86-133 | Edit and Delete hand this announcement, or its id, to the page and close the menu without touching the expanded content; toggling the menu twice restores the card |
| AnnouncementCard.PriorityStyle | src/pages/communication-center/components/AnnouncementCard.jsx:20-31 | urgent is drawn in the error colours, high in the warning colours, normal in the primary colours, and every other priority in the muted default |
| AnnouncementCard.CategoryIcon | src/pages/communication-center/components/AnnouncementCard.jsx:33-46 | schedule shows Calendar, equipment Settings, training GraduationCap, event Star, and any other category MessageSquare |
| AnnouncementCard.LowLooksUnknown | src/pages/communication-center/components/AnnouncementCard.jsx:20-31 | 'low' is drawn like an unknown priority, while urgent, high, normal and low are otherwise told apart |
| RecipientSelector.CountRole | src/pages/communication-center/components/RecipientSelector.jsx:23-25 | a role's group count never exceeds the roster size |
| RecipientSelector.Groups | src/pages/communication-center/components/RecipientSelector.jsx:21-29 | seven groups: 'all' counts the whole roster, and the administrator, media lead and volunteer groups count the members holding that role |
| RecipientSelector.RoleCountsAddUp | src/pages/communication-center/components/RecipientSelector.jsx:22-25 | on a roster where everyone has one of the three roles, the three role counts add up to the roster size |
| RecipientSelector.GroupsAddUp | src/pages/communication-center/components/RecipientSelector.jsx:21-25 | on such a roster the three role groups add up to the 'all' group |
| RecipientSelector.RosterRolesKnown | src/pages/communication-center/components/RecipientSelector.jsx:12-19 | the six roster members all hold one of the three roles, so the group counts add up on the page |
| RecipientSelector.FilteredMembers | src/pages/communication-center/components/RecipientSelector.jsx:31-35 | the search lists only roster members whose name, e-mail or role contains the term ignoring case, and every such member |
| RecipientSelector.EmptySearchListsAll | src/pages/communication-center/components/RecipientSelector.jsx:31-35 | an empty search lists the whole roster in order |
| RecipientSelector.RosterIdsDistinct | src/pages/communication-center/components/RecipientSelector.jsx:12-56 | the roster ids are distinct, so selecting all selects each member once |
| RecipientSelector.Selector.constructor | src/pages/communication-center/components/RecipientSelector.jsx:8-10 | the picker starts with an empty search, the given users selected and no groups; a duplicate-free prop gives a valid selection |
| RecipientSelector.Selector.SelectedCount | src/pages/communication-center/components/RecipientSelector.jsx:119 | the count adds selected users and selected groups, and while the selection holds no repeats it equals the number of distinct users plus distinct groups chosen |
| RecipientSelector.Selector.UserToggle | src/pages/communication-center/components/RecipientSelector.jsx:37-43 | a click flips whether that user is selected, keeps the groups, and keeps the selection free of duplicates |
| RecipientSelector.Selector.GroupToggle | src/pages/communication-center/components/RecipientSelector.jsx:45-51 | a click flips whether that group is selected, keeps the users, and keeps the selection free of duplicates |
| RecipientSelector.Selector.SelectAll | src/pages/communication-center/components/RecipientSelector.jsx:53-56 | every roster id is selected once, in roster order, and the groups stay |
| RecipientSelector.Selector.ClearAll | src/pages/communication-center/components/RecipientSelector.jsx:58-61 | nothing stays selected and the count is zero |
| RecipientSelector.Selector.Search | src/pages/communication-center/components/RecipientSelector.jsx:97 | typing changes the search term and no selection |
| RecipientSelector.Selector.Confirm | src/pages/communication-center/components/RecipientSelector.jsx:63-69 | the selection is handed over exactly as it stands |
| RecipientSelector.ToggleTwiceRestores | src/pages/communication-center/components/RecipientSelector.jsx:37-43 | toggling the same user twice leaves the same set of users selected |
| MediaUpload.FileType | src/pages/media-library/components/MediaUpload.jsx:58-63 | a file is an image, video or audio exactly when its MIME type starts with that prefix, and a document exactly when it starts with none of them or is missing |
| MediaUpload.PrefixesExclusive | src/pages/media-library/components/MediaUpload.jsx:58-63 | no MIME type starts with two of the three prefixes, so the order of the tests does not matter |
| MediaUpload.FileTypeExamples | src/pages/media-library/components/MediaUpload.jsx:58-63 | png is an image, mp4 a video, mpeg audio, and a pdf or a missing type a document |
| MediaUpload.Queued | src/pages/media-library/components/MediaUpload.jsx:43-53 | each picked file becomes one entry, in order, with id now plus its index, its name, size and kind, category worship, no description and no tags |
| MediaUpload.ApplyFileEdit | src/pages/media-library/components/MediaUpload.jsx:65-71 | an edit of the category or the description changes that field only, and the id, name, size, kind and tags stay |
| MediaUpload.UpdateFileData | src/pages/media-library/components/MediaUpload.jsx:65-71 | only the entries with that id take the edit; the queue keeps its length and every other entry |
| MediaUpload.RemoveFile | src/pages/media-library/components/MediaUpload.jsx:73-75 | removing keeps only entries with another id, and every one of them |
| MediaUpload.RemoveFileKeepsOrder | src/pages/media-library/components/MediaUpload.jsx:73-75 | removing the one entry with an id gives the queue without it, the others in their order |
| MediaUpload.Uploader.constructor | src/pages/media-library/components/MediaUpload.jsx:8-9 | the dialog starts without highlight and with an empty queue |
| MediaUpload.Uploader.AddFiles | src/pages/media-library/components/MediaUpload.jsx:43-56 | the new entries go after the queued ones |
| MediaUpload.Uploader.Drag | src/pages/media-library/components/MediaUpload.jsx:23-31 | entering or moving over raises the highlight, leaving lowers it, and the queue stays |
| MediaUpload.Uploader.Drop | src/pages/media-library/components/MediaUpload.jsx:33-41 | a drop lowers the highlight and queues the dropped files when there is at least one |
| MediaUpload.Uploader.UpdateFile | src/pages/media-library/components/MediaUpload.jsx:65-71 | the queue takes the edit of that id |
| MediaUpload.Uploader.Remove | src/pages/media-library/components/MediaUpload.jsx:73-75 | the queue loses the entries with that id |
| MediaUpload.Uploader.ClickUpload | src/pages/media-library/components/MediaUpload.jsx:77-104 | with an empty queue the Upload button is disabled and a click sends nothing and changes nothing; otherwise the whole queue goes to the page and the queue empties |
| MediaUpload.Uploader.Complete | src/pages/media-library/components/MediaUpload.jsx:94-99 | on completion the whole queue is handed to the page and the queue empties |
| MediaLibrary.CountType | src/pages/media-library/index.jsx:160-163 | a type's count never exceeds the number of items |
| MediaLibrary.ComputeStats | src/pages/media-library/index.jsx:156-170 | the statistics count every item, each of the four types, and add up every size |
| MediaLibrary.TypeCountsBounded | src/pages/media-library/index.jsx:160-163 | the four type counts together never exceed the number of items |
| MediaLibrary.StatsBounded | src/pages/media-library/index.jsx:158-165 | the images, videos, audio and documents shown never add up to more than the total files |
| MediaLibrary.TotalSizeAppend | src/pages/media-library/index.jsx:164 | the storage used by two lists together is the sum of each list's storage |
| MediaLibrary.Filtered | src/pages/media-library/index.jsx:173-188 | the grid shows only items of the list passing search, category, type, date range and tags, and every such item |
| MediaLibrary.Matches | src/pages/media-library/index.jsx:173-187 | the conjunction of the search, category, type, date-range and tag tests; Filtered states what the grid keeps |
| MediaLibrary.ClearedFiltersShowAll | src/pages/media-library/index.jsx:173-253 | after clearing the filters every item is shown, in order |
| MediaLibrary.MoreTagsShowMore | src/pages/media-library/index.jsx:184-185 | tags are any-of: selecting one more tag beside others never hides an item |
| MediaLibrary.RemoveId | src/pages/media-library/index.jsx:214 | deleting keeps only items with another id, and every one of them |
| MediaLibrary.RemoveIds | src/pages/media-library/index.jsx:259 | bulk deleting keeps only items whose id is not selected, and every one of them |
| MediaLibrary.NewItems | src/pages/media-library/index.jsx:219-233 | each queued file becomes one item, in order, with id now plus its index, its metadata, stamped now and uploaded by the current user |
| MediaLibrary.UploadStats | src/pages/media-library/index.jsx:156-235 | after an upload the total counts the new files too and the storage grows by their sizes |
| MediaLibrary.SaveItem | src/pages/media-library/index.jsx:238-243 | saving replaces exactly the items with the edited id by the edited item stamped as modified now, keeping the length |
| MediaLibrary.Library.constructor | src/pages/media-library/index.jsx:19-31 | the page starts with its seed items, nothing selected, no preview and the filters cleared |
| MediaLibrary.Library.CurrentStats | src/pages/media-library/index.jsx:156-170 | the statistics shown are those of the current list: its number of files, its total size, and media counts that together never exceed the number of files |
| MediaLibrary.Library.SelectItem | src/pages/media-library/index.jsx:199-205 | ticking appends the id without a duplicate check; unticking removes every copy of it |
| MediaLibrary.Library.DeleteItem | src/pages/media-library/index.jsx:212-217 | a confirmed delete removes the item from the list and from the selection; a refused one changes nothing |
| MediaLibrary.Library.Upload | src/pages/media-library/index.jsx:219-236 | the uploaded items come first, in queue order, ahead of every existing item |
| MediaLibrary.Library.SavePreview | src/pages/media-library/index.jsx:238-245 | the list takes the edited item and the preview shows it as passed, without the new stamp |
| MediaLibrary.Library.ClearFilters | src/pages/media-library/index.jsx:247-253 | clearing resets every filter and nothing else |
| MediaLibrary.Library.BulkDelete | src/pages/media-library/index.jsx:255-262 | with nothing selected or no confirmation nothing changes; otherwise every selected item goes and the selection empties |
| UserManagement.Merge | src/pages/user-management/index.jsx:158 | a saved user carries every field of the form and keeps its id and last activity |
| UserManagement.MergeOwnForm | src/pages/user-management/index.jsx:158 | saving a user's own fields gives back the same user |
| UserManagement.MergeLastWins | src/pages/user-management/index.jsx:154-163 | saving twice leaves what the second save alone would |
| UserManagement.FilteredUsers | src/pages/user-management/index.jsx:125-132 | the table lists only users whose name or e-mail contains the search ignoring case and whose role and status equal the set choices, and every such user |
| UserManagement.ResetListsAll | src/pages/user-management/index.jsx:327-331 | after Reset every user is listed, in order |
| UserManagement.RoleChoiceListsRole | src/pages/user-management/index.jsx:128 | with a role chosen, every listed user has that role |
| UserManagement.SetRole | src/pages/user-management/index.jsx:352-360 | a role change gives the users with that id the new role, leaves all their other fields, and leaves every other user |
| UserManagement.SetStatus | src/pages/user-management/index.jsx:361-369 | a status change gives the users with that id the new status, leaves all their other fields, and leaves every other user |
| UserManagement.SetRoleIdempotent | src/pages/user-management/index.jsx:352-360 | choosing a role twice is choosing it once, and choosing the role a user already has changes nothing |
| UserManagement.SaveUser | src/pages/user-management/index.jsx:154-163 | a save merges the form into the users with the open user's id and leaves the others; with no user open nothing changes |
| UserManagement.Stats | src/pages/user-management/index.jsx:232-273 | the cards count all users, the active ones, the admins and the pending ones, each at most the total |
| UserManagement.ActiveAndPendingBounded | src/pages/user-management/index.jsx:245-273 | the active and pending cards together never exceed the total |
| UserManagement.RoleChangeKeepsStatusCounts | src/pages/user-management/index.jsx:352-360 | a role change leaves every status count as it was |
| UserManagement.StatusesOfMap | src/pages/user-management/index.jsx:245-273 | two lists that agree on each user's status give the same status counts |
| UserManagement.Page.constructor | src/pages/user-management/index.jsx:21-32 | the page starts from its seed users, no user open, nothing selected and no filter |
| UserManagement.Page.Listed | src/pages/user-management/index.jsx:125-132 | the table lists only matching users of the page, and every one of them |
| UserManagement.Page.UserToggle | src/pages/user-management/index.jsx:134-140 | ticking appends the id, unticking removes every copy of it |
| UserManagement.Page.HeaderToggle | src/pages/user-management/components/UserTable.jsx:95-102 | the header box ticked appends every listed id in order; unticked it removes every listed id |
| UserManagement.Page.BulkAction | src/pages/user-management/index.jsx:142-146 | a bulk action or "clear selection" empties the selection |
| UserManagement.Page.OpenUser | src/pages/user-management/index.jsx:349 | choosing a row opens the panel on that user |
| UserManagement.Page.ClosePanel | src/pages/user-management/index.jsx:381 | closing the panel leaves no user open |
| UserManagement.Page.Save | src/pages/user-management/index.jsx:154-163 | saving merges the form into the open user and closes the panel |
| UserManagement.Page.RoleChange | src/pages/user-management/index.jsx:352-360 | the list takes the role change and nothing else changes |
| UserManagement.Page.StatusChange | src/pages/user-management/index.jsx:361-369 | the list takes the status change and nothing else changes |
| UserManagement.Page.SetQuery | src/pages/user-management/index.jsx:310-322 | the search box and the selects set the filter and nothing else |
| UserManagement.Page.Reset | src/pages/user-management/index.jsx:327-331 | Reset clears the filter and every user is listed again |
| UserManagement.HeaderChecked | src/pages/user-management/components/UserTable.jsx:95 | the header box is checked when the selection is as long as the table; while the selection holds no repeats and only rows of the table, that happens exactly when every listed user is selected |
| UserManagement.HeaderCheckFromEmpty | src/pages/user-management/components/UserTable.jsx:95-99 | from an empty selection, ticking the header selects every listed user and shows it checked |
| UserManagement.HeaderCheckOvershoots | src/pages/user-management/components/UserTable.jsx:95-99 | from a non-empty selection, ticking the header appends duplicates and shows it unchecked |
| UserTable.SortedUsers | src/pages/user-management/components/UserTable.jsx:32-46 | the table shows a reordering of exactly the users it is given |
| UserTable.UserLePreorder | src/pages/user-management/components/UserTable.jsx:32-46 | each column's comparator, either way round, is a total preorder |
| UserTable.AscLe | src/pages/user-management/components/UserTable.jsx:32-46 | the ascending comparator of each column; NameOrder, RoleOrder and ActivityOrder state the orders |
| UserTable.UserLe | src/pages/user-management/components/UserTable.jsx:32-46 | the column's comparator in the chosen direction; UserLePreorder states that it is a total preorder |
| UserTable.SortedUsersSorted | src/pages/user-management/components/UserTable.jsx:32-46 | the rows are in the order of the current column and direction |
| UserTable.NameOrder | src/pages/user-management/components/UserTable.jsx:36-45 | by name, ascending lists lower-cased names in string order and descending in reverse |
| UserTable.RoleOrder | src/pages/user-management/components/UserTable.jsx:36-45 | by role, the same on lower-cased roles |
| UserTable.ActivityOrder | src/pages/user-management/components/UserTable.jsx:41-45 | by last activity, ascending lists the longest idle first and descending the most recent first |
| UserTable.SortedListUnchanged | src/pages/user-management/components/UserTable.jsx:32-46 | a list already in order is shown as it is, and sorting the rows again changes nothing |
| UserTable.Table.constructor | src/pages/user-management/components/UserTable.jsx:8-9 | the table starts sorted by name, ascending |
| UserTable.Table.HandleSort | src/pages/user-management/components/UserTable.jsx:23-30 | clicking the current column flips the direction; another column becomes current, ascending |
| UserTable.Table.Rows | src/pages/user-management/components/UserTable.jsx:32-46 | the rows are a reordering of the users given, in the current column's order |
| UserTable.SortTwice | src/pages/user-management/components/UserTable.jsx:23-30 | clicking the same header twice restores the direction, or leaves a new column descending |
| UserDetailPanel.LoadedForm | src/pages/user-management/components/UserDetailPanel.jsx:28-46 | a loaded form takes each field the user record has, and the default for each one it lacks |
| UserDetailPanel.EmptyRecordLoadsDefaults | src/pages/user-management/components/UserDetailPanel.jsx:10-46 | a record with no fields loads the panel's default form |
| UserDetailPanel.LoadThenSaveIsIdentity | src/pages/user-management/components/UserDetailPanel.jsx:28-127 | a user of the page loads as its own fields, so saving the loaded form leaves the user unchanged |
| UserDetailPanel.ApplyChange | src/pages/user-management/components/UserDetailPanel.jsx:77-81 | an input change leaves every other field and the notification switches |
| UserDetailPanel.ChangeTakesEffect | src/pages/user-management/components/UserDetailPanel.jsx:77-81 | the changed field reads back as the new value, and repeating the change changes nothing more |
| UserDetailPanel.SetChannel | src/pages/user-management/components/UserDetailPanel.jsx:91-99 | only the named notification switch takes the new value |
| UserDetailPanel.SetChannelUndo | src/pages/user-management/components/UserDetailPanel.jsx:91-99 | switching a channel back to its old value restores the switches |
| UserDetailPanel.PanelErrors | src/pages/user-management/components/UserDetailPanel.jsx:101-117 | a name message exactly when the name is blank, an e-mail message exactly as the e-mail rule gives one, a role message exactly when no role is set, and no other key |
| UserDetailPanel.PanelValidIff | src/pages/user-management/components/UserDetailPanel.jsx:101-120 | the form passes exactly when the name has a non-space character, the address contains a match of the pattern and a role is set |
| UserDetailPanel.BlankEmailIsMissing | src/pages/user-management/components/UserDetailPanel.jsx:108-109 | a blank address is reported as missing, never as badly formed |
| UserDetailPanel.StatusNotChecked | src/pages/user-management/components/UserDetailPanel.jsx:101-120 | the status never changes the outcome of the check |
| UserDetailPanel.Panel.constructor | src/pages/user-management/components/UserDetailPanel.jsx:10-26 | the panel starts with the default form and no messages |
| UserDetailPanel.Panel.LoadUser | src/pages/user-management/components/UserDetailPanel.jsx:28-46 | a new user fills the form from its record; without one the form stays |
| UserDetailPanel.Panel.InputChange | src/pages/user-management/components/UserDetailPanel.jsx:77-89 | the form takes the change and only that field's message is cleared |
| UserDetailPanel.Panel.NotificationChange | src/pages/user-management/components/UserDetailPanel.jsx:91-99 | only the switches change |
| UserDetailPanel.Panel.Validate | src/pages/user-management/components/UserDetailPanel.jsx:101-120 | the stored messages are those of the form, and the result is true exactly when the form is valid |
| UserDetailPanel.Panel.Save | src/pages/user-management/components/UserDetailPanel.jsx:122-127 | the form is handed over exactly when it is valid, unchanged, and the messages are those of the form |
| InviteUserModal.ApplyChange | src/pages/user-management/components/InviteUserModal.jsx:26-30 | an input change leaves every other field of the invitation |
| InviteUserModal.InviteErrors | src/pages/user-management/components/InviteUserModal.jsx:40-56 | an e-mail message exactly as the e-mail rule gives one, a name message exactly when the name is blank, a role message exactly when no role is chosen, and no other key |
| InviteUserModal.InviteValidIff | src/pages/user-management/components/InviteUserModal.jsx:40-59 | the invitation passes exactly when the address contains a match of the pattern, the name has a non-space character and a role is chosen |
| InviteUserModal.InviteRulesScope | src/pages/user-management/components/InviteUserModal.jsx:9-56 | the welcome switch and the message never affect the check, and the empty form fails all three rules with the address reported missing |
| InviteUserModal.Modal.constructor | src/pages/user-management/components/InviteUserModal.jsx:9-17 | the dialog starts with the empty invitation, welcome switched on, and no messages |
| InviteUserModal.Modal.InputChange | src/pages/user-management/components/InviteUserModal.jsx:26-38 | the form takes the change and only that field's message is cleared |
| InviteUserModal.Modal.Validate | src/pages/user-management/components/InviteUserModal.jsx:40-59 | the stored messages are those of the form, and the result is true exactly when the form is valid |
| InviteUserModal.Modal.Submit | src/pages/user-management/components/InviteUserModal.jsx:61-80 | an invalid form stops before the page's handler; a valid one is handed over, and the form resets and the dialog closes unless the handler throws, when both stay |
| InviteUserModal.Modal.Close | src/pages/user-management/components/InviteUserModal.jsx:82-92 | closing resets the form and clears every message |
| PermissionMatrix.Keys | src/pages/user-management/components/PermissionMatrix.jsx:176-178 | the keys of a role's flags are their permission names, in order |
| PermissionMatrix.Get | src/pages/user-management/components/PermissionMatrix.jsx:162 | a box can show ticked only for a permission the role has a key for |
| PermissionMatrix.Put | src/pages/user-management/components/PermissionMatrix.jsx:89-97 | setting a key makes it read as the new value and leaves every other key's value; an existing key keeps its place and a new one goes last |
| PermissionMatrix.PutKeepsValid | src/pages/user-management/components/PermissionMatrix.jsx:89-97 | setting a key never makes a role list a permission twice |
| PermissionMatrix.Change | src/pages/user-management/components/PermissionMatrix.jsx:89-97 | a click changes only the clicked role's flags and leaves every other role's |
| PermissionMatrix.ChangeSetsOneCell | src/pages/user-management/components/PermissionMatrix.jsx:89-162 | after a click the clicked box shows the new value and every other box shows what it showed before |
| PermissionMatrix.PutSameValue | src/pages/user-management/components/PermissionMatrix.jsx:89-97 | setting a key to the value it has gives back the same flags |
| PermissionMatrix.PutTwice | src/pages/user-management/components/PermissionMatrix.jsx:89-97 | setting a key twice to the same value is setting it once |
| PermissionMatrix.ChangeIdempotent | src/pages/user-management/components/PermissionMatrix.jsx:89-97 | a repeated click to the same value changes nothing more |
| PermissionMatrix.ChangeToSameValue | src/pages/user-management/components/PermissionMatrix.jsx:89-97 | a click on a listed box to the value it already shows gives back the same matrix |
| PermissionMatrix.EnabledCount | src/pages/user-management/components/PermissionMatrix.jsx:177 | the enabled count never exceeds the number of flags |
| PermissionMatrix.PutCounts | src/pages/user-management/components/PermissionMatrix.jsx:89-178 | on a listed permission, ticking an unticked box adds one to the enabled count, unticking takes one away, and the total stays |
| PermissionMatrix.ChangeCounts | src/pages/user-management/components/PermissionMatrix.jsx:89-178 | a click changes the clicked role's summary by exactly that one box and leaves its total |
| PermissionMatrix.InitialSummary | src/pages/user-management/components/PermissionMatrix.jsx:7-38 | the dialog opens showing admin 8/8, media lead 6/8 and volunteer 0/8 |
| PermissionMatrix.PermissionIdsDistinct | src/pages/user-management/components/PermissionMatrix.jsx:8-17 | the eight permission names are distinct |
| PermissionMatrix.RowOverIdsValid | src/pages/user-management/components/PermissionMatrix.jsx:8-17 | a role listing the eight names in order lists no permission twice |
| PermissionMatrix.InitialValid | src/pages/user-management/components/PermissionMatrix.jsx:7-38 | the initial matrix lists no permission twice in any role |
| PermissionMatrix.Dialog.constructor | src/pages/user-management/components/PermissionMatrix.jsx:7-38 | the dialog starts from the initial grants |
| PermissionMatrix.Dialog.PermissionChange | src/pages/user-management/components/PermissionMatrix.jsx:89-97 | the matrix takes the click and keeps every role free of duplicate keys |
| PermissionMatrix.Dialog.Save | src/pages/user-management/components/PermissionMatrix.jsx:99-102 | the whole matrix is handed over unchanged |
| ActivityTracker.UserChoices | src/pages/user-management/components/ActivityTracker.jsx:11-14 | the user select offers "All Users" first and then each user of the page, in order, by id and name |
| ActivityTracker.FilteredActivities | src/pages/user-management/components/ActivityTracker.jsx:121-123 | with no user chosen the whole log is shown; with one chosen, only that user's entries and every one of them |
| ActivityTracker.FilterKeepsOrder | src/pages/user-management/components/ActivityTracker.jsx:121-123 | filtering keeps the log order: the entries of two logs in turn are filtered in turn |
| ActivityTracker.NoMatchMessage | src/pages/user-management/components/ActivityTracker.jsx:167-173 | the no-match message shows exactly when no entry belongs to the chosen user |
| ActivityTracker.TrackerIcon | src/pages/user-management/components/ActivityTracker.jsx:77-92 | schedule shows Calendar, media FolderOpen, communication MessageSquare, system LogIn, profile User, and any other type Activity |
| ActivityTracker.TrackerColor | src/pages/user-management/components/ActivityTracker.jsx:94-109 | schedule is drawn in the primary colour, media in success, communication in warning, system muted, profile in the secondary colour, and any other type in the foreground colour |
| ActivityTracker.KnownKindsDistinct | src/pages/user-management/components/ActivityTracker.jsx:77-109 | the five known types have five different icons and five different colours, none of them the fallback |
| ActivityTracker.Tracker.constructor | src/pages/user-management/components/ActivityTracker.jsx:8-9 | the view starts with all users over the last seven days |
| ActivityTracker.Tracker.Shown | src/pages/user-management/components/ActivityTracker.jsx:121-177 | the entries shown all come from the log, and with no user chosen they are the whole log |
| ActivityTracker.Tracker.SelectUser | src/pages/user-management/components/ActivityTracker.jsx:152-154 | choosing a user sets it and leaves the time range |
| ActivityTracker.Tracker.SelectTimeRange | src/pages/user-management/components/ActivityTracker.jsx:159-161 | the time range is stored but the entries shown stay the same |
| NotificationIndicator.UnreadCount | src/components/ui/NotificationIndicator.jsx:34 | the unread count never exceeds the number of notifications, and is zero exactly when none is unread |
| NotificationIndicator.MarkRead | src/components/ui/NotificationIndicator.jsx:47-55 | the notifications with that id become read, keeping everything else, and all others stay as they were |
| NotificationIndicator.MarkAllRead | src/components/ui/NotificationIndicator.jsx:57-61 | every notification becomes read, in place, keeping everything else |
| NotificationIndicator.MarkReadIdempotent | src/components/ui/NotificationIndicator.jsx:47-55 | reading the same notification twice is reading it once |
| NotificationIndicator.MarkReadNeverIncreases | src/components/ui/NotificationIndicator.jsx:34-55 | reading one notification never raises the unread count |
| NotificationIndicator.MarkUnreadLowersByOne | src/components/ui/NotificationIndicator.jsx:34-55 | reading an unread notification whose id is unique lowers the count by exactly one |
| NotificationIndicator.MarkAllReadClears | src/components/ui/NotificationIndicator.jsx:34-61 | after "Mark all read" nothing is unread |
| NotificationIndicator.Badge | src/components/ui/NotificationIndicator.jsx:96-100 | no badge at zero, the count's own digit from one to nine, and "9+" above nine |
| NotificationIndicator.ShowsMarkAll | src/components/ui/NotificationIndicator.jsx:106 | "Mark all read" is offered exactly while some notification is unread |
| NotificationIndicator.NotificationIcon | src/components/ui/NotificationIndicator.jsx:63-74 | success shows CheckCircle, warning AlertTriangle, error AlertCircle, and any other type Info |
| NotificationIndicator.NotificationColor | src/components/ui/NotificationIndicator.jsx:76-88 | success, warning and error are drawn in their own colours, and any other type in the primary colour |
| NotificationIndicator.KnownTypesDistinct | src/components/ui/NotificationIndicator.jsx:63-88 | success, warning and error each get an icon and a colour of their own, neither of them the fallback |
| NotificationIndicator.Indicator.constructor | src/components/ui/NotificationIndicator.jsx:5-32 | the bell starts closed over its seed notifications |
| NotificationIndicator.Indicator.Toggle | src/components/ui/NotificationIndicator.jsx:92 | the bell button flips the dropdown and leaves the notifications |
| NotificationIndicator.Indicator.MouseDown | src/components/ui/NotificationIndicator.jsx:36-45 | a mouse-down outside closes the dropdown; one inside changes nothing |
| NotificationIndicator.Indicator.MarkAsRead | src/components/ui/NotificationIndicator.jsx:47-55 | the list takes the read mark and the unread count does not rise |
| NotificationIndicator.Indicator.MarkAllAsRead | src/components/ui/NotificationIndicator.jsx:57-61 | every notification is read and the badge disappears |
| Breadcrumbs.CurrentPath | src/components/ui/BreadCrumbNavigation.jsx:18-32 | the current crumb's path always starts with '/' |
| Breadcrumbs.CurrentLabel | src/components/ui/BreadCrumbNavigation.jsx:33 | the page's title when its path is mapped, otherwise the last path segment, and no label only when unmapped with no segments |
| Breadcrumbs.CurrentPathIdempotent | src/components/ui/BreadCrumbNavigation.jsx:18-32 | rebuilding the path from an already rebuilt path changes nothing |
| Breadcrumbs.TrailingSlashDropped | src/components/ui/BreadCrumbNavigation.jsx:18-32 | a one-segment path with a trailing slash is rebuilt without it |
| Breadcrumbs.GenerateBreadcrumbs | src/components/ui/BreadCrumbNavigation.jsx:17-43 | the login page gets no crumbs, the dashboard only the home crumb, and any other path the home crumb followed by the current crumb |
| Breadcrumbs.RenderedOn | src/components/ui/BreadCrumbNavigation.jsx:45-50 | the trail is drawn exactly on paths other than the login page and the dashboard |
| Breadcrumbs.Rendered | src/components/ui/BreadCrumbNavigation.jsx:45-50 | the trail is drawn off the login page with more than one crumb; RenderedOn states on which paths |
| Breadcrumbs.KnownPagesLabelled | src/components/ui/BreadCrumbNavigation.jsx:8-33 | each of the four known pages keeps its own path and shows its mapped title |
| Breadcrumbs.PageTitle | src/components/ui/BreadCrumbNavigation.jsx:8-33 | the title mapped to a known page; KnownPagesLabelled states the four titles |
| Breadcrumbs.OneSegmentPageLabelled | src/components/ui/BreadCrumbNavigation.jsx:18-33 | a mapped path made of one slash-free segment is rebuilt as itself and labelled with its title |
| Login.Age | src/pages/login/index.jsx:18-20 | the session's age exists exactly when a login time is stored, and adds to it to give now |
| Login.Decide | src/pages/login/index.jsx:14-31 | nothing stored, or an empty text, stays on the login page; a readable entry that is remembered or younger than a day goes to the dashboard; any other entry, unreadable or null included, is removed |
| Login.Fresh | src/pages/login/index.jsx:18-23 | a stored login is fresh when it is less than a day old; Decide states what follows from it |
| Login.RememberedAlwaysNavigates | src/pages/login/index.jsx:23-25 | a remembered session goes to the dashboard whatever its age |
| Login.TwentyFourHourBoundary | src/pages/login/index.jsx:20-28 | an unremembered session goes on exactly while it is less than 86400000 ms old: one millisecond before the day it goes on, at the day it is removed, and without a login time it is removed |
| Login.ExpiryIsMonotone | src/pages/login/index.jsx:20-28 | an entry removed now would also be removed at any later time |
| Login.FreshSessionsWereFresh | src/pages/login/index.jsx:20-25 | a session that goes on now would also have gone on at any earlier time |
| Login.LoginPage.constructor | src/pages/login/index.jsx:14 | the page sees whatever entry the storage holds |
| Login.LoginPage.CheckStoredSession | src/pages/login/index.jsx:12-33 | the page navigates to the dashboard exactly when the entry is decided so, and the entry is removed exactly when decided so |
| Login.CheckTwice | src/pages/login/index.jsx:12-33 | after a removal a second check stays on the page with nothing stored, and a page that stayed keeps its entry |
| TimeAgo.ElapsedMinutes | src/pages/dashboard/components/NotificationCenter.jsx:40 | the elapsed minutes are the largest whole number of minutes not exceeding the gap |
| TimeAgo.ElapsedHours | src/pages/user-management/components/UserTable.jsx:77 | the elapsed hours are the largest whole number of hours not exceeding the gap |
| TimeAgo.MinuteSpan | src/pages/dashboard/components/NotificationCenter.jsx:42-50 | minutes below an hour, whole hours from 1 to 23 below a day, whole days from then on, each the floor of the gap |
| TimeAgo.DigitRun | src/pages/dashboard/components/RecentActivityItem.jsx:44-52 | the leading digits of a label end exactly at its first non-digit |
| TimeAgo.ParseCompact | src/pages/dashboard/components/RecentActivityItem.jsx:44-52 | a compact label reads back only to a count that is not negative |
| TimeAgo.ParseLong | src/pages/dashboard/components/NotificationCenter.jsx:42-50 | a long label reads back only to a count that is not negative |
| TimeAgo.DigitRunOfDigits | src/pages/dashboard/components/RecentActivityItem.jsx:45 | a run of digits followed by a non-digit has exactly that many leading digits |
| TimeAgo.SplitNumber | src/pages/dashboard/components/RecentActivityItem.jsx:45 | a number written out and followed by a non-digit splits back into the number and the rest |
| TimeAgo.CompactRoundTrip | src/pages/dashboard/components/RecentActivityItem.jsx:44-52 | the compact label loses nothing: bucket and count read back exactly |
| TimeAgo.LongRoundTrip | src/pages/dashboard/components/NotificationCenter.jsx:42-50 | the long label loses nothing: bucket and count read back exactly, the plural included |
| TimeAgo.LabelsAgree | src/pages/dashboard/components/AnnouncementCard.jsx:31-45 | for a time not in the future, the long and the compact label both read back to the bucket of the elapsed minutes |
| TimeAgo.FormatLong | src/pages/dashboard/components/AnnouncementCard.jsx:31-45 | the dashboard card's label in minutes, hours or days; LabelsAgree states that for a past time it reads back to the elapsed bucket |
| TimeAgo.FormatCompact | src/pages/dashboard/components/RecentActivityItem.jsx:39-53 | the activity item's short label in m, h or d; LabelsAgree states that for a past time it reads back to the elapsed bucket |
| TimeAgo.CompactEdges | src/pages/dashboard/components/RecentActivityItem.jsx:44-52 | 59 minutes is "59m ago", an hour "1h ago" and a day "1d ago" |
| TimeAgo.MinutesAlwaysPlural | src/pages/dashboard/components/NotificationCenter.jsx:43 | one minute reads "1 minutes ago" |
| TimeAgo.HourPlural | src/pages/dashboard/components/NotificationCenter.jsx:45-46 | one hour is singular, two hours plural |
| TimeAgo.DayPlural | src/pages/dashboard/components/NotificationCenter.jsx:48-49 | one day is singular, two days plural |
| TimeAgo.HourRecency | src/pages/user-management/components/UserTable.jsx:79-82 | "Just now" below an hour, the exact hours below a day, whole days from 1 to 6 below a week, and the date from then on |
| TimeAgo.RecencyLabels | src/pages/user-management/components/ActivityTracker.jsx:111-119 | a fixed label is shown exactly for gaps under a week, and any gap under an hour, a future one included, reads "Just now" |
| TimeAgo.FormatRecency | src/pages/user-management/components/UserTable.jsx:74-83 | the last-activity label, or the locale date for a week or more; RecencyLabels and RecencyHoursReadBack state when each label is shown |
| TimeAgo.RecencyHoursReadBack | src/pages/user-management/components/UserTable.jsx:80 | between one hour and a day the label reads back to the exact number of whole hours |
| Dashboard.AvailableActions | src/pages/dashboard/index.jsx:147-149 | an action is offered exactly when it is one of the actions and shares a permission with the user, and never more actions than there are |
| Dashboard.Visible | src/pages/dashboard/index.jsx:147-149 | an action is visible when it shares a permission with the user; AvailableActions, AdminSeesAll and SinglePermission state the result |
| Dashboard.NotListedHidden | src/pages/dashboard/index.jsx:147-149 | a volunteer is never offered an action whose permissions omit 'volunteer' |
| Dashboard.ActionsKeepOrder | src/pages/dashboard/index.jsx:147-149 | the offered actions keep the order of the action list |
| Dashboard.NoPermissionsNoActions | src/pages/dashboard/index.jsx:147-149 | a user without permissions is offered nothing, and an action requiring none is never offered |
| Dashboard.AdminSeesAll | src/pages/dashboard/index.jsx:95-149 | a user holding 'admin' is offered every quick action, in order |
| Dashboard.CurrentUserSeesAll | src/pages/dashboard/index.jsx:13-17 | the dashboard's own user is offered all six quick actions |
| Dashboard.SinglePermission | src/pages/dashboard/index.jsx:147-149 | a user with one permission sees exactly the actions listing it |
| Dashboard.VolunteerSeesNoneOf | src/pages/dashboard/index.jsx:95-127 | a volunteer is offered none of the first four quick actions |
| Dashboard.OnlyBackShown | src/pages/dashboard/index.jsx:147-149 | when none of a front part and all of a back part are offered, exactly the back part is offered from the two together |
| Dashboard.VolunteerSeesBoth | src/pages/dashboard/index.jsx:128-144 | a volunteer is offered both the schedule and the media browser |
| Dashboard.VolunteerSeesTwo | src/pages/dashboard/index.jsx:95-149 | a volunteer is offered exactly the schedule and the media browser, in that order |
| Dashboard.MetricsForRole | src/pages/dashboard/index.jsx:152-210 | the media administrator gets four cards with one trend each; any other role gets two cards without trends, "My Assignments" and "Hours Scheduled" |
| Dashboard.RoleTitleIsExact | src/pages/dashboard/index.jsx:152-212 | the dashboard's own user gets the four cards, while the lower-cased title gets only two |
| NotificationCenter.Displayed | src/pages/dashboard/components/NotificationCenter.jsx:7 | the list shown is a prefix of the notifications: all of them when expanded, at most three otherwise |
| NotificationCenter.ToggleOnlyWhenHidden | src/pages/dashboard/components/NotificationCenter.jsx:7 | without the toggle the collapsed list is already everything; with it the collapsed list and the hidden rest make up the whole list |
| NotificationCenter.ToggleShown | src/pages/dashboard/components/NotificationCenter.jsx:110 | the Show All / Show Less button appears only with more than three notifications; ToggleOnlyWhenHidden states what it hides |
| NotificationCenter.EmptyStateIffNoNotices | src/pages/dashboard/components/NotificationCenter.jsx:72-76 | the empty state shows exactly when there are no notifications, expanded or not |
| NotificationCenter.ToggleCaption | src/pages/dashboard/components/NotificationCenter.jsx:118 | the toggle reads "Show Less" when expanded, and otherwise "Show All (" with the total in digits and a closing parenthesis |
| NotificationCenter.UnreadCount | src/pages/dashboard/components/NotificationCenter.jsx:61 | the unread count never exceeds the notifications, and is zero exactly when none is unread |
| NotificationCenter.UnreadCountsHidden | src/pages/dashboard/components/NotificationCenter.jsx:7-61 | the unread count covers the hidden notifications too: it is the count shown plus the count hidden |
| NotificationCenter.NoticeIcon | src/pages/dashboard/components/NotificationCenter.jsx:9-22 | schedule shows Calendar, announcement Megaphone, system Settings, reminder Bell, and any other type Info |
| NotificationCenter.PriorityBorder | src/pages/dashboard/components/NotificationCenter.jsx:24-35 | high gets the error border, medium the warning border, low the success border, and any other priority the muted border |
| NotificationCenter.Center.constructor | src/pages/dashboard/components/NotificationCenter.jsx:6 | the list starts collapsed |
| NotificationCenter.Center.Shown | src/pages/dashboard/components/NotificationCenter.jsx:7 | the list shown is always a prefix of the notifications |
| NotificationCenter.Center.Toggle | src/pages/dashboard/components/NotificationCenter.jsx:116 | the toggle flips between collapsed and expanded |
| NotificationCenter.ToggleTwice | src/pages/dashboard/components/NotificationCenter.jsx:116 | toggling twice shows the same list again |
| DashboardAnnouncementCard.PriorityIcon | src/pages/dashboard/components/AnnouncementCard.jsx:18-29 | high shows AlertTriangle, medium Info, low CheckCircle, and any other priority Bell |
| DashboardAnnouncementCard.PriorityTone | src/pages/dashboard/components/AnnouncementCard.jsx:5-16 | high is drawn in the error colour, medium in warning, low in success, and any other priority muted |
| DashboardAnnouncementCard.PriorityIconsDistinct | src/pages/dashboard/components/AnnouncementCard.jsx:18-29 | high, medium and low have three different icons, none of them the bell |
| DashboardAnnouncementCard.CardTime | src/pages/dashboard/components/AnnouncementCard.jsx:31-59 | the card's time label for a past announcement reads back to the bucket of its elapsed minutes |
| DashboardAnnouncementCard.ShowsUnreadDot | src/pages/dashboard/components/AnnouncementCard.jsx:69 | the dot beside the author shows exactly for an unread announcement |
| RecentActivityItem.ActivityIcon | src/pages/dashboard/components/RecentActivityItem.jsx:5-20 | schedule shows Calendar, media FolderOpen, team Users, communication MessageSquare, system Settings, and any other type Activity |
| RecentActivityItem.ActivityTone | src/pages/dashboard/components/RecentActivityItem.jsx:22-37 | schedule, media, team, communication and system each get their own colour pair, and any other type the muted pair |
| RecentActivityItem.KnownKindsStyled | src/pages/dashboard/components/RecentActivityItem.jsx:5-37 | each of the five known types has an icon and a tone of its own, not the fallback |
| RecentActivityItem.ItemTime | src/pages/dashboard/components/RecentActivityItem.jsx:39-65 | the item's time label for a past activity reads back to the bucket of its elapsed minutes |

## Left out

- Rendering and styling: JSX, Tailwind classes, and the icon and colour tables used only for looks (MediaGrid, ServiceScheduleCard, MetricCard, QuickActionButton). Routes and configuration are left out too. None of them has behaviour of its own.
- Thin presentational components: MediaFilters, MessageFilters, BulkActionsBar, NavigationSidebar, Header, UserProfileDropdown, the QuickActions panels, ViewToggle, the login sub-components and MediaPreview's edit buffer. They only pass values to the page handlers, and those handlers are modelled.
- Browser storage: the login page reads and removes the session through `localStorage`. The model passes the stored entry in (`Login.AuthEntry`, already parsed) and returns whether it is removed. JSON parsing is not modelled; a parse failure is one case of that entry.
- The clipboard, `window.open`, `URL.createObjectURL` and the object URLs of uploads, avatars, and the page title: browser services, with no logic around them.
- Resize listeners, drag-and-drop `DataTransfer` and `preventDefault`: browser events. In the schedule dialog only the dragged volunteer and the drop are modelled.
- `stopPropagation` in the calendar cells: a browser event detail.
- Timers: the simulated upload progress and its completion steps, the dashboard clock, and the fake loading delay of the media library. The model has no time that passes by itself. An upload is modelled from "files chosen" to "completed items handed on".
- The `isLoading` and `isSubmitting` flags: they only disable buttons while those timers run.
- Floating point: the `Math.log`-based size texts (`formatFileSize`, `formatStorageSize`) are left out. Byte totals are modelled as integers, and elapsed minutes and hours use integer division, as `Math.floor` does on them.
- Locale and time zone: `toLocaleDateString` and `toLocaleString` texts are not modelled. `localeCompare` is plain lexicographic order and `toLowerCase` is ASCII lower-casing. One time zone is assumed throughout: the calendar's `toISOString` key is modelled as the civil date itself, so a day shift from UTC conversion is not modelled.
- Handlers that only log: on the team schedule, saving a schedule, assigning a volunteer, bulk assignment, importing availability and applying a template. On the user page, inviting a user and saving permissions. On the communication page, viewing the archive and exporting data. They change no state. The bulk action of the user page is modelled: apart from its log line, it clears the selection.
- The seed records of the pages are fixtures and are not modelled. Lists start from a parameter instead. The model does keep as constants the initial form values, the permission matrix, the recipient selector's team list, the dashboard's quick actions and metrics, and the signed-in person's role and permissions.
- The case mismatch between the import `./components/TeamSidebar` and the file `TeamSideBar.jsx` is a build issue, not behaviour.
- The e-mail of the signed-in person on the dashboard: it is only displayed.
- CommunicationCenter.OrderPreorder: proved only when every priority is one of urgent, high, normal and low. For any other priority, JavaScript's comparator returns NaN, and the model counts that as a tie.
- CommunicationCenter.PriorityOrder: ordered by rank only when every priority is known, for the same reason.
- CommunicationCenter.VisibleSorted: for the priority order, proved only under the same condition.

## Behaviour notes

The model follows the code as written, including where it does something a reader might not expect:
- The schedule dialog copies the service's assignments into its edit buffer only when it is created. It does not copy them again when the service changes while the dialog stays mounted.
- The list view's "status" sort compares the status words alphabetically: complete, then none, then partial.
- `setMonth` on the 31st overflows as JavaScript does. For example, one month back from March 31 is still March, because February 31 rolls over. The calendar model keeps that.
- The communication filter turns the author's name into a slug by lower-casing it and replacing only its first space with `-`.
- The status filter of the communication centre is stored but never applied.
- The "to" date filter compares against midnight at the start of that day, so announcements made later on that same day are dropped.
- An unparseable date filter drops every announcement. In JavaScript, a comparison with an invalid date is false.
- An announcement with an unknown priority ties with every other one in the priority sort.
- The communication card treats 'low' priority like an unknown one (the default style), and an unknown category shows 'MessageSquare'.
- The compose form is created once, when the page mounts with nothing being edited, so it starts from the defaults. Edit only marks the save target and opens the dialog: the form still holds the defaults, or whatever a cancelled session left in it, attachments included. Only a successful submit resets it. Saving an edit writes all of the form's fields, whatever they hold, over the announcement.
- Saving a media preview stamps the stored item as modified now. The open preview keeps the item as it was handed over, without that stamp.
- The schedule dialog treats a volunteer id of 0 like "no volunteer": both clear the role.
- The e-mail rule `\S+@\S+\.\S+` is unanchored. It is matched against the untrimmed address once that address has a non-space character, so a string that merely contains an address somewhere passes.
- Lengths and character checks work on code points, where JavaScript counts UTF-16 units. The two differ only outside the Basic Multilingual Plane.
- Selecting a media item appends its id without checking for a duplicate. Deselecting removes every copy.
- The header checkbox of the user table adds every listed id, even ids already selected, so an id can appear twice.
- The permission dialog keeps unsaved edits after Cancel, because its matrix lives as long as the component does.
- Saving the user detail panel merges the form into the user whose id matches the open user. With no open user it changes nothing.
- The activity log's time range is stored but never read.
- A path such as `/login/` with a trailing slash still shows the breadcrumb trail; only the exact paths are hidden.
- The relative time says "1 minutes ago": the minute form has no singular, while the hour and day forms do.
- A stored session that parses to `null` is removed, because reading its login time throws inside the same `try`. A remembered session goes to the dashboard whatever its age, even with no valid login time.
- The dashboard shows the four overview metrics only for the exact title "Media Administrator". Any other title, even the same words lower-cased, gets the two personal cards.
