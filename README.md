# ssl-certs-monitor, modelled in Dafny

ssl-certs-monitor watches the TLS certificates of a list of domains. The
model covers seven pieces:

- **Watch-list API** (backend/main.py). It keeps the list of domains in a file.
  - Reading returns the list.
  - A bulk add keeps only the submitted names that, once stripped, match a
    host-name pattern and are not stored yet.
  - A delete removes one stored name.
  - Every write stores the list sorted and without duplicates.
- **Shared check** (backend/monitor_logic.py). It turns what the TLS probe of a
  host yields into a status record. The status is `OK`, `Expire bientôt`
  (under 30 days left) or `Expiré`, or `Erreur` when the probe fails.
- **Background task** (backend/cron_job.py).
  - It checks every domain and keeps the records that are not `OK`.
  - When there are any, it composes one summary e-mail, provided all four
    mail settings are given. A `SMTP_PORT` that is set but is not an integer
    makes it raise first, whether or not the other settings are given.
- **Stand-alone monitor** (backend/monitor.py).
  - It reads a domains file in which a line starting with `#` is a comment.
  - It alerts only about expired certificates, failed checks, and
    certificates with exactly 5 or 7 days left.
  - Its e-mail body shows the expiry date of every certificate it could read.
- **Command-line checker** (monitor.py). It prints one line per domain. It
  calls every certificate it could read `OK`, even an expired one.
- **"Add domains" dialog** (frontend/src/components/AddDomainModal.tsx).
  - It turns the text typed in the dialog into a list of names.
  - Submitting steps through sending the list and handling the reply.
- **Dashboard search box** (frontend/src/components/DashboardDisplay.tsx). It
  shows the certificates whose domain contains the query, ignoring case.

The model follows the code of these files.

## How the model is organised

| File | What it holds |
|---|---|
| `wrappers.dfy` | `Option` |
| `seqs.dfy` | order-preserving filtering (a Python list comprehension with an `if`, or JavaScript's `filter`) and subsequences |
| `text.dfy` | `strip`/`trim`, ASCII `toLowerCase`, `split`/`join` on one character, `includes`, `str(n)`, fixed-width numbers, and counting the lines that start with a prefix |
| `hostname.dfy` | the host-name pattern of backend/main.py line 70 |
| `domain_store.dfy` | the API's list as a class with a `seq` field and the three endpoints |
| `certificate.dfy` | status, record, date formats and the probe |
| `monitor_logic.dfy`, `cron_job.dfy`, `backend_monitor.dfy`, `root_monitor.dfy` | the checks, alert choices and reports |
| `add_domain_modal.dfy` | the dialog (a class) |
| `dashboard_display.dfy` | the search filter |

Model choices:

- **TLS probe.** It is an oracle value, `Probe`. It is either the parsed expiry
  date plus the whole seconds left until it, or the exception raised (its
  class name and text).
- **Loops that append.** They are methods with loop invariants, each proved
  equal to a function:
  - `body_lines` in both reports;
  - `results` and `critical_certs` in backend/monitor.py;
  - the printing loop of monitor.py.
- **Host-name pattern.** The regular expression is written as a recursive
  predicate, `Matches`. Its generative reading, `Compose`, is a list of labels
  each followed by a dot, then a top-level label. Two lemmas show that
  `Matches` and `Compose` accept the same names.
- **The pattern's label rules** are those of section 2.3.1 of RFC 1035, as
  relaxed by section 2.1 of RFC 1123:
  - 1 to 63 letters, digits or hyphens;
  - no hyphen at either end.

  The third rule, a letters-only top-level label of at least two characters,
  comes from the pattern at backend/main.py:70 alone.

## Model

| member | source | states |
|---|---|---|
| Text.TrimSlice | backend/main.py:73 | `strip()` cuts only whitespace off both ends; what is left is a contiguous slice of the input that neither starts nor ends with whitespace |
| Text.TrimEmpty | backend/monitor.py:86 | a stripped line is empty exactly when the line is all whitespace, which is when the filter `line.strip()` drops it |
| Text.TrimIdempotent | backend/main.py:73-74 | stripping twice is stripping once, so the server's strip of a name the dialog already trimmed changes nothing |
| Text.LowerIdempotent | frontend/src/components/DashboardDisplay.tsx:60 | lower-casing twice is lower-casing once |
| Text.ContainsIff | frontend/src/components/DashboardDisplay.tsx:60 | `includes` holds exactly when the query occurs at some position of the domain |
| Text.JoinSplit | backend/cron_job.py:32 | splitting on a character and joining back with it gives the text back |
| Text.SplitJoin | backend/cron_job.py:32 | joining pieces free of the separator and splitting again gives the pieces back |
| Text.SplitConcat | frontend/src/components/AddDomainModal.tsx:23 | splitting text joined at one separator splits each side, so lines keep their order |
| Text.NonBlankLines | monitor.py:45 | the stripped non-blank lines of a text, shared by monitor.py and the dialog's parse (frontend/src/components/AddDomainModal.tsx:23), are at most one per line |
| Text.TrimmedNonBlankShape | monitor.py:45 | the stripped non-blank lines are at most as many as the lines, and each is non-empty with no whitespace at either end |
| Text.TrimmedNonBlankMembers | monitor.py:45 | an entry is kept exactly when it is the non-empty strip of some line |
| Text.TrimmedNonBlankConcat | frontend/src/components/AddDomainModal.tsx:23 | the kept lines of two blocks of lines are those of the first block followed by those of the second |
| Text.NatToStringValue | backend/main.py:83 | the decimal text `str(n)` reads back as `n` |
| Text.IntToStringInjective | backend/cron_job.py:45 | distinct day counts are rendered as distinct texts |
| Text.PadValue | backend/monitor_logic.py:42 | a zero-padded field of `isoformat` reads back as its value |
| Text.ValuePad | backend/monitor.py:58 | a digit field parsed by `fromisoformat` is padded back to the same text |
| Seqs.FilterMeaning | backend/cron_job.py:124 | a comprehension with an `if` keeps exactly the elements that satisfy the condition, every copy of each (as a multiset count), in their order |
| Hostname.Matches | backend/main.py:70 | the anchored pattern read label by label, up to the first dot each time; a matching name contains a dot |
| Hostname.ComposeMatches | backend/main.py:70 | every name of one or more valid labels, each followed by a dot, and then a top-level label matches the pattern |
| Hostname.Decompose | backend/main.py:70 | every matching name splits into one or more valid labels, each followed by a dot, and a top-level label |
| Hostname.CompositionShape | backend/main.py:70 | a composed name is at least 4 characters, contains a dot, starts with a letter or digit, ends in two letters and contains no whitespace |
| Hostname.MatchedShape | backend/main.py:70 | the same for every matching name, and stripping it changes nothing |
| Hostname.AcceptedExample | backend/main.py:70 | `example.com` is accepted |
| Hostname.AcceptedSeveralLabels | backend/main.py:70 | `a-b.c2.org` is accepted: several labels, hyphens and digits inside labels |
| Hostname.HyphenExamples | backend/main.py:70 | a label may not start or end with a hyphen |
| Hostname.TopLevelExamples | backend/main.py:70 | the top-level label has at least two characters, all of them letters |
| Hostname.DotExamples | backend/main.py:70 | at least one label; no empty label; no trailing dot |
| DomainStore.SortedHasNoDuplicates | backend/main.py:46 | a strictly ascending list has no duplicates |
| DomainStore.Insert | backend/main.py:46 | inserting a name into a strictly ascending list keeps it strictly ascending and adds exactly that name |
| DomainStore.Normalize | backend/main.py:46 | `sorted(list(set(domains)))` is strictly ascending and holds exactly the names given |
| DomainStore.SortedUnique | backend/main.py:46 | only one strictly ascending list holds a given set of names |
| DomainStore.NormalizeBySet | backend/main.py:80-81 | what is stored depends only on the set of names written, so the iteration order of the Python set does not matter |
| DomainStore.NormalizeSorted | backend/main.py:46 | a list already sorted and duplicate-free is stored unchanged |
| DomainStore.ValidNewSet | backend/main.py:72-75 | the set comprehension `valid_new_domains`: every member matches the pattern and is not stored yet |
| DomainStore.ValidNew | backend/main.py:72-75 | the new names are listed without duplicates and are exactly the members of the set `valid_new_domains` |
| DomainStore.ValidNewMeaning | backend/main.py:72-75 | a name is added iff it is some request entry stripped, matches the pattern and is not stored yet, by exact comparison; the count is the number of distinct such names |
| DomainStore.StoredNamesAreNotNew | backend/main.py:74 | a request whose every entry is already stored, once stripped, adds nothing |
| DomainStore.AddedMessageInjective | backend/main.py:83 | the added count can be read back from the success message |
| DomainStore.RemoveFirst | backend/main.py:92 | `list.remove` takes out one occurrence of the name |
| DomainStore.RemoveFirstMembers | backend/main.py:92-93 | in a duplicate-free list, removing a name removes it and keeps every other name |
| DomainStore.RemoveFirstKeepsLaterCopy | backend/main.py:92-93 | after the removal the name is still present exactly when it was listed more than once |
| DomainStore.DomainFile.constructor | backend/main.py:32-36 | the list starts as the file holds it |
| DomainStore.DomainFile.Write | backend/main.py:43-46 | the stored list is strictly ascending and holds exactly the names written |
| DomainStore.DomainFile.GetDomains | backend/main.py:50-53 | returns the stored list and changes nothing |
| DomainStore.DomainFile.AddBulk | backend/main.py:63-83 | 400 with its detail, list unchanged, iff no valid new name remains; otherwise the stored set is the old set plus the valid new names, sorted, with the distinct count in the message |
| DomainStore.DomainFile.Delete | backend/main.py:85-95 | 404, list unchanged, iff the name is not stored; otherwise the list minus its first copy, normalised; a duplicate-free list loses exactly that name; the name remains iff it was listed twice |
| Certificate.DaysLeft | backend/cron_job.py:78 | `timedelta.days` is the floor of the seconds over 86400 |
| Certificate.Classify | backend/cron_job.py:80-82 | exactly one status: `Expiré` iff days < 0, `Expire bientôt` iff 0 ≤ days < 30, `OK` iff days ≥ 30, never `Erreur` |
| Certificate.ClassifyBySeconds | backend/cron_job.py:76-82 | a certificate is expired iff its expiry lies before now, and expires soon iff it is less than 30 × 86400 seconds ahead |
| Certificate.ClassifyMonotonic | backend/cron_job.py:80-82 | a later expiry never has a worse status |
| Certificate.IsoFormat | backend/cron_job.py:84 | `isoformat()` of a date without microseconds is 19 characters |
| Certificate.DateFormat | monitor.py:28 | `%Y-%m-%d` is the first ten characters of the ISO text |
| Certificate.FrenchDateFormat | backend/monitor.py:58 | `%d/%m/%Y` is ten characters with slashes at positions 2 and 5 |
| Certificate.FrenchDateFields | backend/monitor.py:58 | the day, month and year fields of `%d/%m/%Y` read back as the date's day, month and year |
| Certificate.IsoRoundTrip | backend/monitor.py:58 | `fromisoformat(d.isoformat())` is `d` |
| Certificate.ParseIsoExact | backend/monitor.py:58 | any text the model's `fromisoformat` accepts is the 19-character ISO text of the date it parses to; shorter or longer ISO forms are not accepted |
| MonitorLogic.GetSslExpiryInfo | backend/monitor_logic.py:8-50 | the record carries the hostname; `Erreur` with the error text iff the probe failed; otherwise status by the 30-day threshold, the day count and the ISO date |
| MonitorLogic.StatusMatchesDays | backend/monitor_logic.py:32-36 | a record's status agrees with the day count it carries |
| MonitorLogic.ExpiryDateReadsBack | backend/monitor_logic.py:42 | the stored expiry date reads back as the probed date |
| CronJob.GetSslExpiryInfo | backend/cron_job.py:63-87 | as the shared check, but a failure's message is `TypeName: message` |
| CronJob.NeedsAttention | backend/cron_job.py:124 | a status in `['Expire bientôt', 'Expiré', 'Erreur']` is exactly a status other than `OK` |
| CronJob.CriticalCerts | backend/cron_job.py:124 | `critical_certs` has at most as many records as the results, none of them `OK` |
| CronJob.CriticalCertsMeaning | backend/cron_job.py:124 | `critical_certs` is the order-preserving subsequence of results that are not `OK`, keeping every copy of a repeated record, and is empty iff all are `OK` |
| CronJob.Recipients | backend/cron_job.py:32 | one stripped recipient per comma-separated entry |
| CronJob.RecipientsRoundTrip | backend/cron_job.py:32 | recipients listed without spaces around them come out as listed |
| CronJob.PortAccepted | backend/cron_job.py:26 | an unset `SMTP_PORT` (the default 587) and a port of plain digits convert |
| CronJob.DigitsAreIntLiteral | backend/cron_job.py:26 | any non-empty text of decimal digits is accepted by `int` |
| CronJob.UnsignedLiteral | backend/cron_job.py:26 | for a text without surrounding whitespace or sign, `int` accepts it exactly when it is digit groups |
| CronJob.PortNotANumber | backend/cron_job.py:26 | a blank port, or one whose first character past the whitespace is neither a digit nor a sign, makes `int` raise |
| CronJob.DoubledUnderscore | backend/cron_job.py:26 | two underscores in a row are never digit groups |
| CronJob.PortDoubledUnderscore | backend/cron_job.py:26 | a port with two underscores in a row makes `int` raise |
| CronJob.Report | backend/cron_job.py:20-50 | the report raises iff `SMTP_PORT` is set to a text `int` rejects, which happens before the settings test and so even when the settings are missing; otherwise it is aborted iff a mail setting is missing or empty, and composed if not |
| CronJob.CertLines | backend/cron_job.py:41-48 | a block is the separator, `Domaine : ` with the domain, `Statut  : ` with the status label, then `Jours restants : ` with the day count iff the record has one, then `Erreur : ` with the message iff it has a non-empty one, and a closing blank line |
| CronJob.Body | backend/cron_job.py:39-48 | the body is the dated heading, then a blank line, then exactly the blocks |
| CronJob.BlocksPrefix | backend/cron_job.py:40-48 | the lines for the first records begin the lines for all of them |
| CronJob.BodyMentions | backend/cron_job.py:39-48 | the body holds each record's domain line and status line, its days line if it has a day count, and its error line if it has a non-empty error |
| CronJob.SeparatorTally | backend/cron_job.py:41 | each record's block has exactly one separator line |
| CronJob.DaysTally | backend/cron_job.py:44-45 | a block has a days line iff the record has a day count |
| CronJob.ErrorTally | backend/cron_job.py:46-47 | a block has an error line iff the record has a non-empty error message |
| CronJob.BlocksSeparators | backend/cron_job.py:40-41 | the blocks hold one separator per record |
| CronJob.BlocksDays | backend/cron_job.py:40-45 | the blocks hold one days line per record with a day count |
| CronJob.BlocksErrors | backend/cron_job.py:40-47 | the blocks hold one error line per record with an error message |
| CronJob.BlocksTallies | backend/cron_job.py:40-48 | the three counts together |
| CronJob.BodyTallies | backend/cron_job.py:39-48 | the body has one separator per record, a days line per record with a day count, and an error line per record with a non-empty error |
| CronJob.AppendCertLines | backend/cron_job.py:41-48 | one loop iteration appends the record's block |
| CronJob.AppendBlocks | backend/cron_job.py:40-48 | the loop appends the blocks of all records in order |
| CronJob.BuildBody | backend/cron_job.py:39-48 | `body_lines` is the heading followed by the blocks |
| CronJob.SendSummaryReport | backend/cron_job.py:20-50 | the method composes the specified report |
| CronJob.Run | backend/cron_job.py:99-128 | one record per domain in order; a report is attempted iff some record is not `OK`, and it covers exactly those records |
| BackendMonitor.KeptLines | backend/monitor.py:86 | the comprehension keeps at most one domain per line, and never an empty one |
| BackendMonitor.KeptLinesMeaning | backend/monitor.py:86 | the domains are the stripped non-blank lines among those not starting with `#` |
| BackendMonitor.DomainLinesShape | backend/monitor.py:86 | every domain read is non-empty and stripped |
| BackendMonitor.CommentExample | backend/monitor.py:86 | a `#` line is dropped, but a line indented before its `#` is kept, stripped |
| BackendMonitor.IsCriticalForEmail | backend/monitor.py:99-105 | a failed check or an expired certificate always calls for an alert; with no day count, or with a day count other than 5 and 7, nothing else does |
| BackendMonitor.CriticalPolicy | backend/monitor.py:99-105 | an alert is due exactly for a failed check, an expiry already past, or exactly 5 or 7 days left |
| BackendMonitor.NotCriticalCases | backend/monitor.py:13 | an `OK` certificate never triggers an alert; an expiring-soon one does iff 5 or 7 days are left; 10 days is no alert |
| BackendMonitor.AlertsAreReported | backend/monitor.py:101-105 | everything this monitor alerts about, the background task reports too; with 10 days left, only the background task reports it |
| BackendMonitor.Report | backend/monitor.py:41-65 | the report is either composed or raises, never aborted; it raises exactly when some record that is not `Erreur` lacks a readable ISO expiry date; a composed mail has the count subject, the sender, the joined recipients and the body |
| BackendMonitor.CheckedRecordsAreReportable | backend/monitor.py:57-60 | every record the check produces has an ISO expiry date when it is not `Erreur`, so the body can be written |
| BackendMonitor.ReportableBlocks | backend/monitor.py:53-63 | the body is written exactly when every record is reportable (a failure, or a record with a readable ISO expiry date) |
| BackendMonitor.CertLines | backend/monitor.py:54-63 | one record's block raises exactly when the record is not `Erreur` and has no ISO expiry date; otherwise it is six lines for a certificate that was read and five for a failure: the separator, `Domaine : ` with the domain, `Statut  : ` with the status label, the content lines, and a closing empty line |
| BackendMonitor.Body | backend/monitor.py:52-63 | the body is written exactly when every block is; it is then the four greeting lines followed by exactly the blocks |
| BackendMonitor.HeadTallies | backend/monitor.py:54-56 | a block's first three lines hold one separator and no days, date or error line |
| BackendMonitor.ReadTailTallies | backend/monitor.py:57-60 | the rest of the block of a certificate that was read holds one days line and one expiry-date line |
| BackendMonitor.FailureTailTallies | backend/monitor.py:61-62 | the rest of the block of a failed check holds one error line |
| BackendMonitor.CertLinesTallies | backend/monitor.py:53-63 | each block holds one separator, and a days line and an expiry-date line if the certificate was read or an error line if not |
| BackendMonitor.BlocksTallies | backend/monitor.py:53-63 | the blocks hold one separator per record, one days line and one date line per certificate read and one error line per failure |
| BackendMonitor.GreetingTally | backend/monitor.py:52 | the greeting contains none of the counted lines |
| BackendMonitor.BodyTallies | backend/monitor.py:52-63 | the same four counts for the whole body |
| BackendMonitor.CertLinesContent | backend/monitor.py:57-62 | a read certificate's block gives its day count, `N/A` when it has none, and its expiry date as `%d/%m/%Y`; a failure's block gives its error message, `Inconnue` when it has none |
| BackendMonitor.BlocksPrefix | backend/monitor.py:53-63 | when all the blocks are written, the blocks for the first records are written too and begin them |
| BackendMonitor.BodyMentions | backend/monitor.py:52-63 | the body contains each record's domain line and status line, each read certificate's days line and expiry-date line, and each failure's error line |
| BackendMonitor.AppendCertLines | backend/monitor.py:54-63 | one loop iteration appends the record's block, or raises for a missing date or one not in the 19-character ISO form |
| BackendMonitor.AppendBlocks | backend/monitor.py:53-63 | the loop appends all blocks in order, or raises at the first record that raises |
| BackendMonitor.NoneStaysNone | backend/monitor.py:53-63 | once one record raises, building the whole body raises |
| BackendMonitor.BuildBody | backend/monitor.py:52-63 | `body_lines` is the greeting followed by the blocks |
| BackendMonitor.SendSummaryReport | backend/monitor.py:41-65 | the method composes the specified report |
| BackendMonitor.CheckAll | backend/monitor.py:91-108 | one record per domain in file order; `critical_certs` is exactly the order-preserving subsequence of records that call for an alert |
| BackendMonitor.Run | backend/monitor.py:78-121 | an e-mail is composed iff some certificate calls for an alert, and it always can be composed |
| RootMonitor.GetSslExpiryInfo | monitor.py:6-36 | the status is `OK` iff the probe succeeded, even for an expiry in the past; otherwise `Erreur` with the exception text and no day count |
| RootMonitor.ExpiredReportedOk | monitor.py:24-29 | an expired certificate is printed `OK` with a negative day count, where the shared check says `Expiré` |
| RootMonitor.SameDateAsShared | monitor.py:28 | the date printed is the date part of the ISO date the shared check stores |
| RootMonitor.KeptLinesAreListed | monitor.py:45 | every domain the stand-alone monitor reads is read here too, in the same order |
| RootMonitor.DomainsIncludeBackendDomains | monitor.py:45 | the same for the text of a domains file |
| RootMonitor.CommentLineListed | monitor.py:45 | a line starting with `#` is read here as a domain, stripped, and is dropped by the stand-alone monitor, whatever lines follow |
| RootMonitor.ReportLine | monitor.py:49-52 | the line for a certificate read is the check mark, the domain, `OK`, the day count and the expiry date; otherwise it is the cross, the domain, `Erreur` and the error text |
| RootMonitor.Transcript | monitor.py:38-54 | the output is the start banner, one line per domain, and the end banner |
| RootMonitor.TranscriptMeaning | monitor.py:38-54 | the output is one line per domain in file order between the two banners; a certificate read gives its day count (floor of the seconds left over a day) and its `%Y-%m-%d` date, a failure its error text |
| RootMonitor.PrintAll | monitor.py:47-52 | the loop prints the lines of all domains in order |
| RootMonitor.Run | monitor.py:38-54 | everything printed is the transcript |
| AddDomainModal.ParsedShape | frontend/src/components/AddDomainModal.tsx:23 | no parsed entry is empty or has whitespace at either end |
| AddDomainModal.ParsedMembers | frontend/src/components/AddDomainModal.tsx:23 | the entries are exactly the non-blank lines, trimmed |
| AddDomainModal.ParseInOrder | frontend/src/components/AddDomainModal.tsx:23 | parsing keeps the order of the lines |
| AddDomainModal.ParseJoined | frontend/src/components/AddDomainModal.tsx:23 | one trimmed name per line gives the names back |
| AddDomainModal.ServerAddsParsedNames | frontend/src/components/AddDomainModal.tsx:36 | every name the server adds from the sent list is one of the parsed names as typed |
| AddDomainModal.ErrorText | frontend/src/components/AddDomainModal.tsx:40-50 | the error shown is the server's non-empty `detail`, the fixed fallback otherwise, or the message of what was thrown |
| AddDomainModal.Modal.constructor | frontend/src/components/AddDomainModal.tsx:18-19 | the text is empty and the dialog is not loading |
| AddDomainModal.Modal.Edit | frontend/src/components/AddDomainModal.tsx:67-72 | typing changes only the text |
| AddDomainModal.Modal.Submit | frontend/src/components/AddDomainModal.tsx:21-37 | an empty parse gives an error notification and changes nothing else; otherwise the parsed list is sent and the dialog loads |
| AddDomainModal.Modal.Resolve | frontend/src/components/AddDomainModal.tsx:39-53 | on success: text cleared, the whole sent list passed on, dialog closed; otherwise the loading notification is replaced by the error and the text is kept; loading ends on every path |
| DashboardDisplay.FilteredCertificates | frontend/src/components/DashboardDisplay.tsx:59-61 | `filteredCertificates` has at most as many certificates as given, and each one's lower-cased domain contains the lower-cased query |
| DashboardDisplay.FilteredMeaning | frontend/src/components/DashboardDisplay.tsx:59-61 | the list shown is an order-preserving subsequence of the certificates; a certificate is in it iff its lower-cased domain contains the lower-cased query, as many times as it is listed |
| DashboardDisplay.EmptyQueryKeepsAll | frontend/src/components/DashboardDisplay.tsx:59-61 | an empty query shows every certificate |
| DashboardDisplay.FilterTwice | frontend/src/components/DashboardDisplay.tsx:59-61 | filtering the shown list again with the same query changes nothing |
| DashboardDisplay.QueryCaseIgnored | frontend/src/components/DashboardDisplay.tsx:60 | the case of the query does not matter |
| DashboardDisplay.LongerQueryNarrows | frontend/src/components/DashboardDisplay.tsx:60 | extending the query can only hide certificates |
| DashboardDisplay.EmptyStateMeaning | frontend/src/components/DashboardDisplay.tsx:134-139 | "Aucun certificat trouvé." is shown iff no domain contains the query |

## Left out

- **TLS probe.** The TLS connection, `getpeercert`, the `strptime` of `notAfter`
  and `datetime.now()` are foreign calls and a clock. The probe is an oracle
  value instead.
- **Local time against GMT.** `strptime` with `%Z` gives a naive time that is
  compared with local time. The skew this causes is not modelled, because the
  seconds left are given.
- **Dates.** The model covers only dates with no microseconds, which are the
  dates `notAfter` can hold. Years 1 to 999 are admitted and written with
  four zero-padded digits, as `isoformat()` writes them; `strftime('%Y')` on
  glibc does not pad them (monitor.py:28, backend/monitor.py:58), so for such
  years Certificate.DateFormat and Certificate.FrenchDateFormat differ from
  the source. Certificates do not carry such years.
- Certificate.ParseIso accepts only the 19-character `YYYY-MM-DDTHH:MM:SS` form
  that `isoformat()` writes for the records. Python's `fromisoformat` also
  accepts a bare date, a space in place of `T`, fractional seconds and UTC
  offsets. A record whose `expiry_date` has one of those forms makes the
  model's BackendMonitor.CertLines raise where backend/monitor.py:58 would
  write the block. The records the check produces never have those forms
  (BackendMonitor.CheckedRecordsAreReportable).
- **The background task's date heading** takes today's date as a parameter.
- **Log output of the back end.** The progress and outcome messages that
  backend/cron_job.py (lines 29, 53-60 and 101-128) and backend/monitor.py
  (lines 68-121) print are not modelled; the model keeps their results and
  the composed mail. Only the output of monitor.py is modelled, as
  `RootMonitor.Transcript`.
- **E-mail delivery.** The SMTP exchange (connection, STARTTLS, login, sending)
  is not modelled; the model stops at the composed message.
- **The port setting.** Only whether `int(SMTP_PORT)` raises is modelled. The
  value of the port is used only for the connection, so it is not kept.
  Python's `int` also accepts non-ASCII decimal digits; the model accepts
  ASCII digits only.
- **Environment and configuration.**
  - The five mail settings of the background task are a value of optional
    texts. The sender and the recipients text are used in the composed mail.
    The password and the server are only tested for presence, since they
    serve the SMTP exchange alone; the port text is only tested for whether
    it converts.
  - `config.json` is given to the stand-alone monitor as a value with its
    recipients and sender. Missing keys, which make the source raise, are not
    modelled.
- **File I/O.** These are not modelled:
  - reading and writing `domains.json`, `domains.txt` and `ssl_status.json`;
  - the temporary-file rename;
  - `read_domains` recreating a missing or corrupt file;
  - the "file not found" path of the stand-alone monitor.
  The domains files are given as a list or as text.
- **Newlines.** Python's universal newlines are not modelled. A `\r` left
  before a `\n` is whitespace and is stripped anyway, but a lone `\r` also
  ends a line in Python (backend/monitor.py:86, monitor.py:45) and not in
  `Text.Split`: `"a.com\rb.com"` is one entry in the model and two in
  Python.
- **Concurrency.** `asyncio.gather` returns results in the order of the
  domains, which the sequential map in `CronJob.Run` keeps. The interleaving
  of the checks is not modelled.
- **Web plumbing.** FastAPI routing, CORS and `HTTPException` become the
  `Response` datatype. `check_single_domain` (backend/main.py:55-61) only
  forwards to the background task's check, `CronJob.GetSslExpiryInfo`.
- **Unicode.** Stripping, trimming and lower-casing use ASCII letters and the
  six ASCII whitespace characters (space, tab, line feed, carriage return,
  vertical tab, form feed) only. Non-ASCII case folding and Unicode whitespace
  are not modelled.
- Text.IsSpace: Python's `str.strip()` also removes the ASCII separator
  characters `\x1c` to `\x1f`, which JavaScript's `trim()` keeps. The model
  strips neither, so a domain line ending in one of them is stripped less
  than Python would.
- **Front-end rendering.** Not modelled:
  - toasts as displayed, animations and the modal's open/close state;
  - the Cancel button;
  - the spotlight;
  - page.tsx, layout.tsx, CertificateDetailModal.tsx and ExpirationGauge.tsx,
    which only render (the gauge uses floating-point arithmetic).
- **Reply details.**
  - A reply that is not JSON is modelled as a thrown value with a message.
  - A `detail` that is an array (a validation error from the server) is
    modelled as absent.
- AddDomainModal.Modal.Submit requires that the dialog is not loading, because
  the submit button and the text area are disabled while it loads
  (AddDomainModal.tsx lines 72 and 76).
- RootMonitor.Run models `print` as the sequence of lines printed.
