# dashboardAnalytics core in Dafny

A Dafny model of the server-side logic of the dashboardAnalytics application: a
Next.js analytics dashboard over sales, marketing and financial records. The
model covers:

- **Request admission** (`RateLimiter`): the fixed-window rate limiter with its
  named policies. It also covers how a client is identified from the request
  headers, and the `X-RateLimit-*` / `Retry-After` response headers.
- **Access control** (`Permissions`): the role → resource → action table,
  including what its plain-object lookup inherits for unlisted resources, the
  per-role feature lists and the `canX` shortcuts.
- **Input validation** (`Validations`): the date-string predicate, the integer
  bounds of the paging and settings fields, the password-reset rules, and how
  query parameters are collected.
- **Report arithmetic**:
  - `FinancialReport`: the financial health score and its status, profit
    margins, and first-to-last growth.
  - `SalesGrowth`: period-over-period growth and the overall totals.
  - `SalesTrends`: moving averages, the half-split trend direction and
    strength, variance, and the peak and trough indices.
  - `SalesSummary`: the rolling twelve-month window, its `year-MM` keys, the
    zero-filled monthly trend, the ratio guards and month-over-month growth.
- **Notification list** (`Notifications`): alerts turned into notifications,
  and the list operations of the notifications hook.

Shared modules:

- `Wrappers`: `Option`/`Result`.
- `Decimal`: JavaScript's decimal rendering of integers, with a parser that
  undoes it.
- `Sums`: `reduce((s, v) => s + v, 0)` over reals.

The mutable parts of the system become values threaded through pure functions:

- The limiter's process-wide cache is a `map` from key to entry.
- React state is the list each operation maps to the next list.
- Every clock reading (`Date.now()`, `new Date()`) is a parameter.

Numbers are exact reals or unbounded integers. The totals and averages that the
routes read from MongoDB aggregations are inputs.

## Model

| member | source | states |
|---|---|---|
| RateLimiter.PresetConfig | dashboardanalytics/src/lib/rate-limiter.ts:11-47 | every named policy has a positive window and quota and a non-empty message; the auth policies allow at most 5 requests per window of at least 15 minutes; the API policies use one-minute windows |
| RateLimiter.RejectionMessage | dashboardanalytics/src/lib/rate-limiter.ts:132 | the rejection text is never empty: the policy's message when it has a non-empty one, "Rate limit exceeded" when the message is absent or empty |
| RateLimiter.Check | dashboardanalytics/src/lib/rate-limiter.ts:79-141 | only the entry of this prefix/identifier key is created or changed. A missing or ended window (now > resetTime) restarts at count 1 and is admitted with maxRequests - 1 remaining. Inside a window, including now == resetTime, the count grows by one, the window end is kept, and the request is admitted iff the new count is at most maxRequests. Admitted requests report the quota left; rejected ones report 0 and the message |
| RateLimiter.Reset | dashboardanalytics/src/lib/rate-limiter.ts:147-150 | removes exactly the key of this identifier and leaves every other entry unchanged |
| RateLimiter.GetStatus | dashboardanalytics/src/lib/rate-limiter.ts:156-173 | no status iff the key is absent; otherwise the stored count and window end, and remaining = max(0, maxRequests - count) |
| RateLimiter.InWindowRun | dashboardanalytics/src/lib/rate-limiter.ts:122-140 | a run of checks inside an existing window of count k: the i-th brings the count to k + i + 1 and is admitted iff that is within the quota; rejected checks still count |
| RateLimiter.QuotaCeiling | dashboardanalytics/src/lib/rate-limiter.ts:89-140 | from a fresh window, the k-th check within windowMs is admitted iff k <= maxRequests, with maxRequests - k remaining; the entry ends at count = number of checks |
| RateLimiter.RemainingDecreasesByOne | dashboardanalytics/src/lib/rate-limiter.ts:136-140 | within one window each admitted check reports one less remaining than the one before, which was admitted too |
| RateLimiter.ThreeRequestScenario | dashboardanalytics/src/lib/rate-limiter.ts:79-141 | for any key not yet stored, a 3-per-minute policy yields remaining 2, 1, 0, then a rejection carrying the policy's message, then a fresh window after the minute has passed |
| RateLimiter.ResetThenCheckIsFresh | dashboardanalytics/src/lib/rate-limiter.ts:89-150 | after reset the next check is treated as the first request of a new window, and other keys keep their entries |
| RateLimiter.ResetAbsentIsNoOp | dashboardanalytics/src/lib/rate-limiter.ts:147-150 | resetting an identifier that has no entry leaves the store as it was |
| RateLimiter.KeysDistinctByIdentifier | dashboardanalytics/src/lib/rate-limiter.ts:85 | different identifiers under one prefix never share a counter |
| RateLimiter.KeysDistinctByPrefix | dashboardanalytics/src/lib/rate-limiter.ts:85 | one identifier under different prefixes (policies) never shares a counter |
| RateLimiter.KeysDistinctColonFreePrefix | dashboardanalytics/src/lib/rate-limiter.ts:85 | when neither prefix contains ":", two (prefix, identifier) pairs share a key iff both parts are equal |
| RateLimiter.KeyCollision | dashboardanalytics/src/lib/rate-limiter.ts:85 | in general pairs do not determine keys uniquely: prefix "rl" with identifier "signup:x" and prefix "rl:signup" with identifier "x" share one counter |
| RateLimiter.Isolation | dashboardanalytics/src/lib/rate-limiter.ts:85-89 | a check for one key does not change the decision a later check for any other key receives |
| RateLimiter.CheckKeepsWindowsBounded | dashboardanalytics/src/lib/rate-limiter.ts:93-124 | with a clock that does not run backwards, no stored window ends more than windowMs after the present |
| RateLimiter.StatusAfterCheck | dashboardanalytics/src/lib/rate-limiter.ts:156-173 | the status read right after a check has that check's window end and remaining count, and the check was admitted iff it opened a window or the count is within the quota |
| RateLimiter.FirstField | dashboardanalytics/src/lib/rate-limiter.ts:187 | `split(',')[0]` is the longest comma-free prefix of the header |
| RateLimiter.LeadingSpace | dashboardanalytics/src/lib/rate-limiter.ts:187 | the length of the maximal run of white space at the front |
| RateLimiter.TrailingSpace | dashboardanalytics/src/lib/rate-limiter.ts:187 | the length of the maximal run of white space at the end |
| RateLimiter.Trim | dashboardanalytics/src/lib/rate-limiter.ts:187 | `trim()` keeps a contiguous slice that neither starts nor ends with white space, with only white space around it |
| RateLimiter.TrimEmpty | dashboardanalytics/src/lib/rate-limiter.ts:187 | trimming yields "" iff every character is white space |
| RateLimiter.ClientIdentifier | dashboardanalytics/src/lib/rate-limiter.ts:179-197 | priority chain: "user:" + a non-empty user id; else the trimmed first entry of a non-empty x-forwarded-for (which contains no comma); else a non-empty x-real-ip; else "unknown" |
| RateLimiter.EmptyIdentifier | dashboardanalytics/src/lib/rate-limiter.ts:185-188 | the identifier is empty iff there is no user id and the first x-forwarded-for entry is blank, so all such clients share one counter |
| RateLimiter.ForwardedForSharesUserCounter | dashboardanalytics/src/lib/rate-limiter.ts:179-188 | an anonymous request whose x-forwarded-for is "user:" followed by a signed-in user's id (comma-free, not ending in white space) gets that user's identifier, and so that user's counter |
| RateLimiter.RetryAfterSeconds | dashboardanalytics/src/lib/rate-limiter.ts:209 | `Math.ceil((resetTime - now) / 1000)`: the least n with resetTime - now <= 1000 n |
| RateLimiter.CreateHeaders | dashboardanalytics/src/lib/rate-limiter.ts:202-211 | the remaining and Retry-After headers read back as the decision's remaining count and the seconds to the window end; the reset header carries the window end |
| RateLimiter.RetryAfterWellFormed | dashboardanalytics/src/lib/rate-limiter.ts:209 | Retry-After is a delay-seconds value (digits only, section 10.2.3 of RFC 9110) iff the window ended less than one second before the headers were built |
| RateLimiter.HeadersAtCheckTime | dashboardanalytics/src/lib/rate-limiter.ts:202-211 | headers built at the instant of a check under a valid policy have digit-only remaining and Retry-After, and Retry-After is at most ceil(windowMs / 1000) |
| RateLimiter.ApplyRateLimit | dashboardanalytics/src/lib/rate-limiter.ts:216-244 | checks the identified client and keeps that check's store; succeeds iff the check admitted it, without an error, and otherwise fails with the policy's rejection text; the headers are those built from that check at the headers' own clock reading, so the reset header is the window end and Retry-After reads back as the seconds from that reading to the window end |
| Decimal.IntRoundTrip | dashboardanalytics/src/lib/rate-limiter.ts:207-209 | the `toString()` rendering of an integer parses back to that integer |
| Decimal.IntToDecimalInjective | dashboardanalytics/src/lib/rate-limiter.ts:207-209 | distinct integers render differently |
| Permissions.Table | dashboardanalytics/src/lib/permissions.ts:15-37 | every role's table lists exactly dashboard, reports, settings, users and auditLogs |
| Permissions.HasPermission | dashboardanalytics/src/lib/permissions.ts:39-45 | a listed resource gets its table flag; an unlisted one is denied, except `constructor`, whose `create` reaches the truthy `Object.create` through the prototype chain |
| Permissions.ConstructorCreateGranted | dashboardanalytics/src/lib/permissions.ts:39-45 | every role, a viewer included, is granted `create` on the unlisted resource `constructor`, but not `view` |
| Permissions.Features | dashboardanalytics/src/lib/permissions.ts:72-110 | five features for a viewer, ten for an analyst, sixteen for an admin, none listed twice |
| Permissions.HasFeature | dashboardanalytics/src/lib/permissions.ts:112-114 | a viewer has exactly the five viewing features; an analyst has exactly the viewer's plus export_data, create_reports, save_filters, schedule_reports and advanced_filters; an admin has exactly the analyst's plus manage_users, system_settings, audit_logs, api_keys, integrations and delete_data |
| Permissions.CanExport | dashboardanalytics/src/lib/permissions.ts:47-49 | true iff the role has the export_data feature, iff it may export the dashboard |
| Permissions.CanManageUsers | dashboardanalytics/src/lib/permissions.ts:51-53 | true iff the role may create users, iff it has manage_users |
| Permissions.CanAccessAuditLogs | dashboardanalytics/src/lib/permissions.ts:55-57 | true iff the role may view audit logs, iff it has audit_logs |
| Permissions.CanModifySystemSettings | dashboardanalytics/src/lib/permissions.ts:59-61 | true iff the role has system_settings, iff it may delete settings |
| Permissions.CanCreateReports | dashboardanalytics/src/lib/permissions.ts:63-65 | true iff the role may create reports, iff it has create_reports |
| Permissions.CanDeleteData | dashboardanalytics/src/lib/permissions.ts:67-69 | true iff the role has delete_data, iff it may delete reports |
| Permissions.PermissionsMonotone | dashboardanalytics/src/lib/permissions.ts:15-37 | whatever viewer may do analyst may do, and whatever analyst may do admin may do |
| Permissions.AuditLogsReadOnly | dashboardanalytics/src/lib/permissions.ts:21-35 | no role may create, edit or delete audit logs |
| Permissions.ViewerOnlyViews | dashboardanalytics/src/lib/permissions.ts:16-22 | a viewer's allowed (resource, action) pairs are exactly viewing dashboard, reports and settings, plus the inherited `constructor`/`create` |
| Permissions.FeaturesNested | dashboardanalytics/src/lib/permissions.ts:72-110 | viewer features ⊆ analyst features ⊆ admin features |
| Permissions.AdminOnlyFeatures | dashboardanalytics/src/lib/permissions.ts:92-113 | delete_data and manage_users belong to admin alone |
| Validations.MatchPositions | dashboardanalytics/src/lib/validations.ts:9-10 | a fixed-width regular expression matches iff the string is long enough (exactly that long when `$`-anchored) and each position fits its class |
| Validations.DateStringValid | dashboardanalytics/src/lib/validations.ts:5-13 | absent and empty values are accepted |
| Validations.DateStringCharacterized | dashboardanalytics/src/lib/validations.ts:6-11 | accepted iff empty, or exactly `DDDD-DD-DD`, or starting with `DDDD-DD-DDTDD:DD:DD` |
| Validations.DateMatchIsShape | dashboardanalytics/src/lib/validations.ts:9 | `^\d{4}-\d{2}-\d{2}$` accepts exactly the ten-character strings with digits everywhere except dashes at positions 4 and 7 |
| Validations.DateTimeMatchIsShape | dashboardanalytics/src/lib/validations.ts:10 | `^\d{4}-\d{2}-\d{2}T\d{2}:\d{2}:\d{2}` accepts exactly the strings whose first 19 characters have the date-time shape, whatever follows |
| Validations.NoCalendarCheck | dashboardanalytics/src/lib/validations.ts:9 | "9999-99-99" is accepted: nothing checks month or day ranges |
| Validations.DateTimeAnySuffix | dashboardanalytics/src/lib/validations.ts:10 | the datetime form has no end anchor, so any text may follow the seconds |
| Validations.BoundedInt | dashboardanalytics/src/lib/validations.ts:69-70 | `int().min(lo).max(hi)` rejects non-integers and returns only integers in [lo, hi] equal to the input |
| Validations.BoundedIntAcceptsExactly | dashboardanalytics/src/lib/validations.ts:69-70 | an integer is accepted iff it lies in [lo, hi] |
| Validations.Page | dashboardanalytics/src/lib/validations.ts:17 | default 1; a given value is accepted iff it is an integer >= 1, and is returned unchanged |
| Validations.Limit | dashboardanalytics/src/lib/validations.ts:18 | default 20; a given value is accepted iff it is an integer in [1, 100], and is returned unchanged |
| Validations.SettingsIssues | dashboardanalytics/src/lib/validations.ts:91-102 | a settings field is reported iff it is present and not an integer within its bounds |
| Validations.AcceptedSettingsInRange | dashboardanalytics/src/lib/validations.ts:91-102 | accepted settings have integer sessionTimeout in [5, 1440], passwordExpiry in [0, 365] and alertThreshold in [0, 100] |
| Validations.ResetPasswordIssues | dashboardanalytics/src/lib/validations.ts:145-156 | each of the seven rules (token, length 8, upper case, lower case, digit, confirmation present, confirmation equal) is reported iff the form breaks it |
| Validations.ResetPasswordAccepted | dashboardanalytics/src/lib/validations.ts:145-156 | a form is accepted iff the token is present, the password has 8+ characters with an upper-case letter, a lower-case letter and a digit, and the confirmation equals it |
| Validations.CollectParams | dashboardanalytics/src/lib/validations.ts:122-125 | the collected keys are exactly the query's keys other than "__proto__" (assigning a string to it on a plain object stores nothing), and each collected key holds the value of its last occurrence |
| FinancialReport.CurrentRatioFactor | dashboardanalytics/src/app/api/reports/financial/route.ts:90-94 | counted iff the average is positive; contributes at most 20, and exactly 20 iff the ratio is at least 1.5 |
| FinancialReport.UnitRatioFactor | dashboardanalytics/src/app/api/reports/financial/route.ts:96-106 | counted iff positive; at most 20, exactly 20 iff the ratio is at least 1 |
| FinancialReport.OpexFactor | dashboardanalytics/src/app/api/reports/financial/route.ts:108-112 | counted iff positive; in [0, 20], 20 iff the ratio is at most 30%, 0 iff it is at least 50% |
| FinancialReport.ProfitFactor | dashboardanalytics/src/app/api/reports/financial/route.ts:114-118 | counted, with 20, iff the operation profit is positive |
| FinancialReport.Factors | dashboardanalytics/src/app/api/reports/financial/route.ts:86-118 | at most five contributions, each in [0, 20]; none iff no average is positive |
| FinancialReport.Status | dashboardanalytics/src/app/api/reports/financial/route.ts:262-269 | excellent iff score >= 80, good iff 60 <= score < 80, fair iff 40 <= score < 60, poor iff score < 40 |
| FinancialReport.HealthScoreAsWritten | dashboardanalytics/src/app/api/reports/financial/route.ts:86-121 | the score as computed lies in [0, 20], and is 0 when no factor counts |
| FinancialReport.StatusAlwaysPoorAsWritten | dashboardanalytics/src/app/api/reports/financial/route.ts:86-121 | with the score as computed, the status is "poor" for every input |
| FinancialReport.HealthScore | dashboardanalytics/src/app/api/reports/financial/route.ts:86-121 | the corrected score lies in [0, 100] and is five times the computed one |
| FinancialReport.HealthyIsExcellent | dashboardanalytics/src/app/api/reports/financial/route.ts:86-121 | a company whose every average reaches its full-factor level (current ratio 1.5, cash-flow and liquidity ratios 1, opex ratio within (0, 30], positive operation profit) is "excellent" under the corrected score and "poor" under the score as written |
| FinancialReport.CorrectedStatusesReachable | dashboardanalytics/src/app/api/reports/financial/route.ts:262-269 | under the corrected score "good", "fair" and "poor" occur as well |
| FinancialReport.ProfitMargin | dashboardanalytics/src/app/api/reports/financial/route.ts:192-195 | 0 without positive gross profit; otherwise margin × gross = operation profit × 100 |
| FinancialReport.ProfitMarginSign | dashboardanalytics/src/app/api/reports/financial/route.ts:192-195 | with positive gross profit the margin is positive, zero or 100 exactly when the operation profit is positive, zero or all of it |
| FinancialReport.GrowthDivisor | dashboardanalytics/src/app/api/reports/financial/route.ts:214 | `Math.abs(first \|\| 1)` is always positive and is \|first\| when first is non-zero |
| FinancialReport.PercentGrowth | dashboardanalytics/src/app/api/reports/financial/route.ts:211-217 | growth × divisor = (last - first) × 100, so growth is positive or zero exactly when last is above or equal to first |
| FinancialReport.GrowthAnalysis | dashboardanalytics/src/app/api/reports/financial/route.ts:208-235 | null iff fewer than two periods; otherwise each figure is the first-to-last percentage change |
| FinancialReport.GrowthIgnoresMiddle | dashboardanalytics/src/app/api/reports/financial/route.ts:208-235 | only the first and last periods influence the growth figures |
| SalesGrowth.GrowthRate | dashboardanalytics/src/app/api/reports/sales/growth/route.ts:98 | from 0: 0 to 0 and 100 to anything else; otherwise rate × previous = (current - previous) × 100 |
| SalesGrowth.GrowthRateSign | dashboardanalytics/src/app/api/reports/sales/growth/route.ts:98 | from a positive previous value the rate is positive or negative exactly when the value rose or fell, and at least -100 iff the current value is not negative |
| SalesGrowth.CalculateGrowth | dashboardanalytics/src/app/api/reports/sales/growth/route.ts:96-100 | keeps both values; previous + growth = current; the rate follows the growth-rate rule |
| SalesGrowth.Report | dashboardanalytics/src/app/api/reports/sales/growth/route.ts:75-117 | fewer than two periods: all-zero metrics and no overall trend. Otherwise: the last period against the one before, totals equal the sums over all periods, and averages × count equal the totals |
| SalesGrowth.ReportShifts | dashboardanalytics/src/app/api/reports/sales/growth/route.ts:92-117 | when a period is appended, the old current becomes the new previous and the total revenue grows by the new period's revenue |
| SalesTrends.MovingAverage | dashboardanalytics/src/app/api/reports/sales/trends/route.ts:109-115 | same length as the input; null exactly before index window - 1; otherwise the mean of the window ending there (0 for a negative window, whose slice is empty; a zero window never arrives because the query falls back to 7) |
| SalesTrends.MovingAverageSlides | dashboardanalytics/src/app/api/reports/sales/trends/route.ts:112-113 | consecutive averages differ by (entering value - leaving value) / window |
| SalesTrends.MovingAverageBounded | dashboardanalytics/src/app/api/reports/sales/trends/route.ts:112-113 | every moving average lies within the range of the series |
| SalesTrends.MovingAverageOfOne | dashboardanalytics/src/app/api/reports/sales/trends/route.ts:109-115 | a window of one reproduces the series |
| SalesTrends.Halves | dashboardanalytics/src/app/api/reports/sales/trends/route.ts:131-132 | the first half has floor(n/2) values, the second the rest, and together they are the series |
| SalesTrends.HalfAverage | dashboardanalytics/src/app/api/reports/sales/trends/route.ts:134-135 | NaN (none) iff the half is empty; otherwise average × length = sum |
| SalesTrends.Classify | dashboardanalytics/src/app/api/reports/sales/trends/route.ts:137-142 | never "neutral"; a NaN average gives "stable" |
| SalesTrends.ClassifyPositiveBaseline | dashboardanalytics/src/app/api/reports/sales/trends/route.ts:137-142 | from a positive first average: upward iff second > 1.1 × first, downward iff second < 0.9 × first, stable iff within; upward implies a rise and downward a fall |
| SalesTrends.ClassifyNegativeBaseline | dashboardanalytics/src/app/api/reports/sales/trends/route.ts:137-142 | from a negative first average an unchanged second average is classed "upward" |
| SalesTrends.ClassifyScale | dashboardanalytics/src/app/api/reports/sales/trends/route.ts:137-142 | scaling both averages by the same positive factor keeps the class |
| SalesTrends.Strength | dashboardanalytics/src/app/api/reports/sales/trends/route.ts:144-146 | null (NaN/Infinity) iff the first half is empty or averages 0; otherwise non-negative with strength × \|first\| = \|second - first\| × 100 |
| SalesTrends.Variance | dashboardanalytics/src/app/api/reports/sales/trends/route.ts:149-151 | the variance behind the volatility is never negative |
| SalesTrends.FlatSeriesHasNoVariance | dashboardanalytics/src/app/api/reports/sales/trends/route.ts:149-151 | a constant series has variance 0 |
| SalesTrends.ZeroVarianceIsFlat | dashboardanalytics/src/app/api/reports/sales/trends/route.ts:149-151 | the variance is 0 exactly when every value equals the mean |
| SalesTrends.TrendDirection | dashboardanalytics/src/app/api/reports/sales/trends/route.ts:131-142 | "neutral" iff the series is empty; "stable" for one point; otherwise the class of the two half averages |
| SalesTrends.Analyze | dashboardanalytics/src/app/api/reports/sales/trends/route.ts:70-152 | empty data: neutral with strength and volatility 0; otherwise the direction of the half averages, the strength of the first half's average against the second's (finite iff the first half averages non-zero, so never for one point) and the variance of the whole series |
| SalesTrends.DirectionScaleInvariant | dashboardanalytics/src/app/api/reports/sales/trends/route.ts:131-142 | the direction does not depend on the unit of the revenue |
| SalesTrends.FlatSeriesIsStable | dashboardanalytics/src/app/api/reports/sales/trends/route.ts:131-142 | a constant non-negative series is "stable" |
| SalesTrends.FirstMaxUnique | dashboardanalytics/src/app/api/reports/sales/trends/route.ts:155-157 | the first index of the maximum is unique |
| SalesTrends.FirstMinUnique | dashboardanalytics/src/app/api/reports/sales/trends/route.ts:156-158 | the first index of the minimum is unique |
| SalesTrends.PeakIndex | dashboardanalytics/src/app/api/reports/sales/trends/route.ts:155-157 | returns an index holding the maximum with every earlier value strictly smaller (what `indexOf(Math.max(...))` finds) |
| SalesTrends.TroughIndex | dashboardanalytics/src/app/api/reports/sales/trends/route.ts:156-158 | returns an index holding the minimum with every earlier value strictly larger |
| SalesSummary.SerialInjective | dashboardanalytics/src/app/api/reports/sales/summary/route.ts:52-55 | (year, month index) pairs with month index in 0..11 correspond one-to-one to month serials |
| SalesSummary.MonthBack | dashboardanalytics/src/app/api/reports/sales/summary/route.ts:53-54 | `new Date(y, m - i, 1)` lands on a month index in 0..11, labelled from the month names, exactly i months before (y, m) |
| SalesSummary.MonthWindow | dashboardanalytics/src/app/api/reports/sales/summary/route.ts:50-55 | twelve labelled months, entry k lying 11 - k months before the current one, the last being the current month |
| SalesSummary.WindowConsecutive | dashboardanalytics/src/app/api/reports/sales/summary/route.ts:52-55 | each entry is the month after the previous one, December rolling over to January of the next year |
| SalesSummary.WindowDistinct | dashboardanalytics/src/app/api/reports/sales/summary/route.ts:52-55 | no calendar month appears twice in the window |
| SalesSummary.Pad2 | dashboardanalytics/src/app/api/reports/sales/summary/route.ts:76 | `padStart(2, "0")` gives at least two characters, all digits for non-negative numbers |
| SalesSummary.Pad2RoundTrip | dashboardanalytics/src/app/api/reports/sales/summary/route.ts:76 | the padded rendering of a non-negative number reads back as that number |
| SalesSummary.Pad2Length | dashboardanalytics/src/app/api/reports/sales/summary/route.ts:81 | months pad to exactly two characters |
| SalesSummary.MonthKeyLayout | dashboardanalytics/src/app/api/reports/sales/summary/route.ts:76-81 | for months 1..12 the key is the year's rendering, "-", and the two-digit month |
| SalesSummary.MonthKeyInjective | dashboardanalytics/src/app/api/reports/sales/summary/route.ts:76-81 | two (year, month) pairs share a key iff they are equal, so aggregated rows and window months align |
| SalesSummary.MonthMapAbsent | dashboardanalytics/src/app/api/reports/sales/summary/route.ts:74-78 | a key no row has is not in the map |
| SalesSummary.MonthMapLast | dashboardanalytics/src/app/api/reports/sales/summary/route.ts:74-78 | a key maps to the figures of the last row filed under it |
| SalesSummary.OtherMonthsOtherKeys | dashboardanalytics/src/app/api/reports/sales/summary/route.ts:76-81 | rows of other calendar months are filed under other keys |
| SalesSummary.BuildMonthMap | dashboardanalytics/src/app/api/reports/sales/summary/route.ts:74-78 | the map has at most one entry per row |
| SalesSummary.MonthMapKeys | dashboardanalytics/src/app/api/reports/sales/summary/route.ts:74-78 | a key is in the map iff some row is filed under it |
| SalesSummary.MonthWithoutRows | dashboardanalytics/src/app/api/reports/sales/summary/route.ts:74-82 | a calendar month no row belongs to has no entry, so the lookup falls back to zeros |
| SalesSummary.MonthWithLastRow | dashboardanalytics/src/app/api/reports/sales/summary/route.ts:74-82 | the entry of a calendar month holds the figures of its last row |
| SalesSummary.AvgOrderValue | dashboardanalytics/src/app/api/reports/sales/summary/route.ts:88 | 0 without orders; otherwise value × orders = revenue |
| SalesSummary.TargetCompletionRate | dashboardanalytics/src/app/api/reports/sales/summary/route.ts:148 | 0 without a positive target; otherwise rate × target = achieved × 100 |
| SalesSummary.Point | dashboardanalytics/src/app/api/reports/sales/summary/route.ts:80-89 | labelled with the slot's month and year; the map's figures when the key is present, zeros otherwise; the average follows the orders guard |
| SalesSummary.Trend | dashboardanalytics/src/app/api/reports/sales/summary/route.ts:80-90 | twelve points, one per month of the window, in order |
| SalesSummary.TrendZeroFill | dashboardanalytics/src/app/api/reports/sales/summary/route.ts:82-88 | a window month without an aggregated row shows revenue, orders and average 0 |
| SalesSummary.TrendPicksAggregate | dashboardanalytics/src/app/api/reports/sales/summary/route.ts:74-87 | a window month shows the revenue and orders of the last aggregated row for that calendar month |
| SalesSummary.MonthOverMonth | dashboardanalytics/src/app/api/reports/sales/summary/route.ts:151-153 | from a zero previous month: 0 if the current is 0, else 100; otherwise rate × previous = (current - previous) × 100 |
| SalesSummary.GrowthComparesLastTwoMonths | dashboardanalytics/src/app/api/reports/sales/summary/route.ts:151-153 | over the twelve-month trend the growth compares the current calendar month with the month just before it |
| Notifications.ToUpperAscii | dashboardanalytics/src/hooks/useNotifications.ts:35 | same length; each lower-case ASCII letter becomes its capital, every other character is kept; no lower-case ASCII letter remains |
| Notifications.ToUpperIdempotent | dashboardanalytics/src/hooks/useNotifications.ts:35 | upper-casing twice equals upper-casing once |
| Notifications.AlertIdsDistinct | dashboardanalytics/src/hooks/useNotifications.ts:33 | two alert ids are equal iff they have the same index and the same `Date.now()` reading, whichever instants they were built at |
| Notifications.FromAlert | dashboardanalytics/src/hooks/useNotifications.ts:32-39 | type "error" iff severity is "high", "warning" otherwise; unread; titled with the upper-cased category and " Alert"; the id carries the index and the `Date.now()` reading, the timestamp is the separate `new Date()` reading |
| Notifications.FromAlerts | dashboardanalytics/src/hooks/useNotifications.ts:32-39 | one notification per alert, in order, each with its index and its own clock readings |
| Notifications.Samples | dashboardanalytics/src/hooks/useNotifications.ts:42-59 | two samples with ids sample-1 and sample-2: the first unread and 30 minutes before its clock reading, the second read and 2 hours before its own reading |
| Notifications.Refresh | dashboardanalytics/src/hooks/useNotifications.ts:61 | the converted alerts followed by the two samples |
| Notifications.RefreshIdsDistinct | dashboardanalytics/src/hooks/useNotifications.ts:32-61 | every notification of a fresh list has its own id, whatever the clock read for each alert |
| Notifications.RefreshUnreadCount | dashboardanalytics/src/hooks/useNotifications.ts:32-61 | a fresh list has one unread notification per alert, plus one |
| Notifications.AlertsUnread | dashboardanalytics/src/hooks/useNotifications.ts:32-39 | every converted alert is unread |
| Notifications.UnreadCount | dashboardanalytics/src/hooks/useNotifications.ts:87 | never more than the list's length |
| Notifications.UnreadCountAppend | dashboardanalytics/src/hooks/useNotifications.ts:87 | the unread count of a concatenation is the sum of the parts' counts |
| Notifications.UnreadCountZero | dashboardanalytics/src/hooks/useNotifications.ts:87 | the count is 0 iff every notification is read |
| Notifications.UnreadCountFull | dashboardanalytics/src/hooks/useNotifications.ts:87 | the count equals the length iff no notification is read |
| Notifications.MarkAsRead | dashboardanalytics/src/hooks/useNotifications.ts:65-71 | same length and order; an item becomes read iff it has that id or was read already; nothing else changes |
| Notifications.MarkAsReadIdempotent | dashboardanalytics/src/hooks/useNotifications.ts:65-71 | marking an id twice equals marking it once |
| Notifications.MarkAsReadCommutes | dashboardanalytics/src/hooks/useNotifications.ts:65-71 | marking two ids gives the same list in either order |
| Notifications.MarkAsReadAbsent | dashboardanalytics/src/hooks/useNotifications.ts:65-71 | marking an id no item has leaves the list unchanged |
| Notifications.MarkAsReadUnreadCount | dashboardanalytics/src/hooks/useNotifications.ts:65-87 | marking an id lowers the unread count by the number of unread items with that id |
| Notifications.MarkAllAsRead | dashboardanalytics/src/hooks/useNotifications.ts:73-77 | same length and order, every item read and otherwise unchanged, unread count 0 |
| Notifications.MarkAllAbsorbs | dashboardanalytics/src/hooks/useNotifications.ts:65-77 | after marking all, marking one changes nothing; marking one first makes no difference to marking all |
| Notifications.Delete | dashboardanalytics/src/hooks/useNotifications.ts:79-81 | no survivor has the id, and an item survives iff it was present with another id |
| Notifications.DeleteAppend | dashboardanalytics/src/hooks/useNotifications.ts:79-81 | deleting from a concatenation deletes from each part in order, so relative order is kept |
| Notifications.DeleteAbsent | dashboardanalytics/src/hooks/useNotifications.ts:79-81 | deleting an id no item has leaves the list unchanged |
| Notifications.DeleteLength | dashboardanalytics/src/hooks/useNotifications.ts:79-81 | the length drops by exactly the number of items with the id |
| Notifications.DeleteIdempotent | dashboardanalytics/src/hooks/useNotifications.ts:79-81 | deleting an id twice equals deleting it once |
| Notifications.DeleteMarkCommute | dashboardanalytics/src/hooks/useNotifications.ts:65-81 | deleting one id and marking another read commute |
| Notifications.ClearAll | dashboardanalytics/src/hooks/useNotifications.ts:83-85 | the list becomes empty, with nothing unread |

## Left out

- Floating point: JavaScript numbers are exact reals or integers here. The
  effects left out are `toFixed(2)` rounding, NaN and Infinity (modelled as
  `None` only where the response exposes them as `null`), and 53-bit precision.
- The node-cache TTL sweep and eviction timing. An entry whose window has ended
  is replaced by the next check, as in the source. At the instant
  now == resetTime the cache may already have evicted the entry, which the model
  treats as still inside the window.
- Concurrency: JavaScript runs each check to completion between `get` and `set`,
  so checks are sequential here.
- RateLimiter.GetStatus: there is no clock parameter, so an entry whose window
  has ended but that node-cache has not yet evicted is reported as stored.
- The ISO-8601 text of `X-RateLimit-Reset` is kept as the millisecond timestamp
  it renders. The Date string formatting in every route is left out.
- Every MongoDB aggregation pipeline, database connection and schema. Their
  results (period rows, per-month rows, totals) are inputs.
- The correlation coefficient and the square root turning the variance into
  the volatility (floating-point `Math.sqrt`).
- The weekly, monthly and daily date labels of the trends route.
- SalesTrends.MovingAverage: the window is an integer; a fractional
  `movingAvg` query value is not modelled.
- The query parsing of `days`, `period` and `movingAvg`.
- Validations.Page and Validations.Limit take the number `z.coerce.number()`
  produced; the string-to-number coercion is not modelled.
- The other zod schemas (string length limits, enums, e-mail format) and the
  issue messages. `validateRequestBody` (a thin wrapper around `safeParse`) is
  left out.
- Validations.ResetPasswordIssues assumes the object-level refinement runs even
  when field checks fail (non-fatal string issues). Acceptance, which
  ResetPasswordAccepted states, is the same either way.
- String lengths count Unicode scalar values, where JavaScript counts UTF-16
  code units. They differ only for characters outside the Basic Multilingual
  Plane.
- Notifications.ToUpperAscii: only ASCII letters are upper-cased. JavaScript's
  `toUpperCase` also maps other scripts (for example "ß" to "SS").
- Years 0–99 passed to `new Date(year, month, 1)`, which JavaScript maps to
  1900–1999. The month window assumes a four-digit current year.
- Repeated `x-forwarded-for` headers, which the Fetch API joins with ", ".
- src/lib/api-middleware.ts (request sanitising via `./sanitize`) is outside
  the modelled core.
- The React UI, the data-fetching hooks, the `refetchInterval` polling and the
  React effect that installs the refreshed list.
- Notifications.ClearAll: its contract only states that the result is empty;
  there is nothing more to state about a constant.

## Findings

| source | as written | input that shows it | evidently intended | confidence | as-written member | corrected member |
|---|---|---|---|---|---|---|
| dashboardanalytics/src/app/api/reports/financial/route.ts:86-121 | the health score is the plain average of factors that are each at most 20, so it never exceeds 20, while the status thresholds are 80 / 60 / 40 | every factor healthy (current ratio 2, cash-flow ratio 1, liquidity ratio 1, opex ratio 25%, positive operation profit): score 20, status "poor" | the average factor scaled to 0–100 (× 5), so healthy companies reach "excellent" | high; not executed | FinancialReport.StatusAlwaysPoorAsWritten | FinancialReport.HealthyIsExcellent |
