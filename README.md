# Bookkeeping assistant core, modelled in Dafny

The system is a console bookkeeping assistant for Vietnamese small businesses.
Each line the user types goes to a language model (Gemini), which classifies it:
a ledger entry, a report request, or a question. The model's JSON answer is
cleaned and parsed. Entries become `FinanceRecord`s, with revenue (`doanh_thu`),
cost (`chi_phi`), a note (`ghi_chu`) and a creation time (`ngay_tao`). A record
is kept only after the user answers `ok`. Reports total the records of a month,
a quarter or a year.

This project models the deterministic core of `lib/Python.py`:

- `Cleanup`: `clean_text_json`, i.e. `strip("` \n")` followed by dropping a leading `json` tag.
- `Dates`: `format_strin_to_datetime`. It tries seven formats in order, then the
  ISO parser with `Z` rewritten as `+00:00`, and falls back to the current time.
  The library parsers are parameters of the model.
- `Records`: the record type, `total_revenue` / `total_cost`, the creation of an
  entry from the extracted fields, and the append-on-`ok` ledger.
- `Reports`: `bao_cao_thang`, `bao_cao_quy` and `bao_cao_nam`, returned as values.
  The year report includes its per-month dictionary and its lines in ascending month order.
- `Dispatch`: `xu_ly_report`. It selects the report kind, fills in the defaults
  for a missing period or year, and returns `false` only for an unsupported kind.
- `Client`: `call_api` with credential rotation. A raised failure and a reply
  reading `Error` are both failed attempts. After a failed attempt with retries
  left, the cursor `error_key` moves cyclically to the next credential and the
  client is rebound to it. The cursor persists across calls.

The loops of the source (the two totals, the three reports, the retry loop) are
methods with loop invariants. Each is proved against a recursive specification
function, and the properties are proved about those functions as lemmas. The
process-wide client state (`error_key`, `client`) is the class
`Client.RotatingClient`. The record list the entry path appends to is the class
`Records.Ledger`. The model service, the clock, the `strptime` / `fromisoformat`
parsers and the user's confirmation answer are parameters.

## Model

| member | source | states |
|---|---|---|
| Cleanup.FirstKept | lib/Python.py:62 | the left scan of `strip` stops at the first character that is not a backtick, space or newline; everything it skips is such a character |
| Cleanup.LastKept | lib/Python.py:62 | the right scan of `strip` stops after the last character to keep; everything it skips is junk |
| Cleanup.Strip | lib/Python.py:62 | the result is a contiguous slice of the input; only junk lies before and after it; it neither starts nor ends with junk |
| Cleanup.StripUnique | lib/Python.py:62 | any split of a text into junk, a core without junk at either end, and junk, strips to exactly that core |
| Cleanup.StripIdempotent | lib/Python.py:62 | stripping a stripped text changes nothing |
| Cleanup.DropTag | lib/Python.py:63-64 | `clean_json[4:]` on a text starting with `json` is the rest after the tag |
| Cleanup.CleanTextJson | lib/Python.py:61-65 | the stripped text is the result with the `json` tag restored exactly when the stripped text starts with it; the result does not end with junk |
| Cleanup.CleanTextJsonOf | lib/Python.py:61-65 | junk + core + junk cleans to the core, minus its leading `json` tag when it has one |
| Cleanup.CleanFencedResponse | lib/Python.py:61-65 | a fenced reply `` ```json\n{}\n``` `` cleans to `\n{}` |
| Wrappers.Option.GetOr | lib/Python.py:261-262 | `dict.get(key, default)`: the stored value when present, the default otherwise |
| Dates.FirstMatch | lib/Python.py:84-88 | the index found is the least format that parses the input; none is found only when every format fails |
| Dates.ReplaceZ | lib/Python.py:92 | `replace('Z', '+00:00')` turns a lone `Z` into `+00:00` and keeps any other character; it leaves no `Z`, never shortens, and is the identity on text without `Z` |
| Dates.ReplaceZAppend | lib/Python.py:92 | the rewrite distributes over concatenation; with the one-character case this determines it on every text |
| Dates.Normalize | lib/Python.py:67-100 | a resolved timestamp is returned unchanged; the sentinel `ngay_tao` and an unrecognised value give the current time |
| Dates.NormalizeText | lib/Python.py:73-94 | any other string is parsed by the first format that accepts it; when none does, by the ISO parser on the `Z`-rewritten text; when that fails too, it becomes the current time |
| Records.SumRevenueAppend | lib/Python.py:138-145 | revenue totals are additive over a split of the ledger |
| Records.SumCostAppend | lib/Python.py:147-154 | cost totals are additive over a split of the ledger |
| Records.TotalRevenue | lib/Python.py:138-145 | the loop returns the sum of all revenues |
| Records.TotalCost | lib/Python.py:147-154 | the loop returns the sum of all costs |
| Records.EntryAsWritten | lib/Python.py:303 | the record built on the entry path copies amounts and note, has id 0, and is dated by the current time whatever date was extracted |
| Records.EntryAsWrittenLosesDate | lib/Python.py:303 | a statement dated 2024-01-15 entered on 2025-07-10 is recorded on 2025-07-10, while the corrected entry keeps 2024-01-15 |
| Records.EntryDatedByExtractedDate | lib/Python.py:303 | the corrected entry keeps amounts and note and is dated by the first accepted format that parses the extracted date |
| Records.Ledger.Confirm | lib/Python.py:304-309 | the record is appended exactly when the answer is `ok`; otherwise the ledger is unchanged |
| Records.Ledger.Submit | lib/Python.py:303-309 | the entry path as written: the record with the extracted amounts and note, dated now, is appended exactly when the answer is `ok`; otherwise the ledger is unchanged |
| Records.Entry | lib/Python.py:303 | corrected entry: id 0, the extracted amounts and note, dated by normalising the extracted date |
| Records.Ledger.SubmitCorrected | lib/Python.py:303-309 | corrected entry path: the record dated by the extracted date is appended exactly when the answer is `ok` |
| Reports.FilterMembers | lib/Python.py:164-166 | exactly the records of the period are selected |
| Reports.FilterCounts | lib/Python.py:164-166 | each record of the period is selected as many times as the ledger holds it, any other record never |
| Reports.TallyIsSumOverPeriod | lib/Python.py:156-254 | a report's revenue and cost are `total_revenue` and `total_cost` over exactly the records of its period, and its count is how many there are |
| Reports.MonthReport | lib/Python.py:156-179 | the loop's totals are the month's totals; profit is revenue minus cost; the margin line appears exactly when revenue is positive |
| Reports.QuarterReport | lib/Python.py:181-207 | the same for months `(q-1)*3+1` to `q*3` of the year |
| Reports.QuarterIsThreeMonths | lib/Python.py:183-184 | a quarter's totals are the sum of its three months' totals |
| Reports.QuarterOfMonth | lib/Python.py:183-184 | for quarters 1 to 4, the quarter's month range holds month `m` exactly when `(m-1)//3+1` is that quarter |
| Reports.QuarterOutOfRangeIsEmpty | lib/Python.py:183-194 | a quarter number outside 1 to 4 selects no record |
| Reports.AbsentMonthIsZero | lib/Python.py:231-232 | a month without records of the year totals to zero |
| Reports.BreakdownSnoc | lib/Python.py:229-235 | one more record of the year creates its month's key at zero if missing and adds its amounts to it; other keys are unchanged |
| Reports.AccumulateIsBreakdown | lib/Python.py:219-235 | filling the dictionary record by record gives, for each month present in the year and no other, that month's totals |
| Reports.Aggregate | lib/Python.py:211-235 | the loop returns the year's totals and the per-month dictionary; its key list is duplicate-free and holds exactly the dictionary's keys |
| Reports.Insert | lib/Python.py:250 | inserting into an ascending list keeps it ascending (strictly, for a new key); the result is the list plus that key, counted with multiplicity |
| Reports.SortAscending | lib/Python.py:250 | `sorted(keys)` is a permutation of the keys, is ascending, and is strictly ascending for distinct keys |
| Reports.SortedKeys | lib/Python.py:250 | the sorted keys of the dictionary are strictly ascending and are exactly its keys |
| Reports.Rows | lib/Python.py:250-253 | one line per month, in the given order, each with that month's revenue, cost, profit and transactions |
| Reports.RowsSumOver | lib/Python.py:250-253 | the lines add up to the totals of their months |
| Reports.SumOverSnoc | lib/Python.py:219-235 | one more record adds to a set of distinct months exactly once, when its month is among them |
| Reports.YearIsSumOfMonths | lib/Python.py:219-235 | the totals of the year's months, each counted once, add up to the year's totals |
| Reports.RowsFinal | lib/Python.py:246-253 | the lines are in strictly ascending month order, match their dictionary entries, cover every key, and add up to the year's totals |
| Reports.YearReport | lib/Python.py:209-254 | the summary describes the year's totals; the dictionary is the per-month breakdown; its lines are ascending, match the dictionary, cover every key and add up to the year |
| Reports.SampleReports | lib/Python.py:156-207 | on three sample entries: July has two transactions, the third quarter and the year have all three, the second quarter none |
| Reports.SampleBreakdown | lib/Python.py:219-235 | the sample's year dictionary has keys July and August only, with their totals |
| Dispatch.CurrentQuarter | lib/Python.py:266 | the default quarter lies in 1 to 4 and contains the current month |
| Dispatch.Select | lib/Python.py:256-282 | each known kind selects its report; a missing or unknown kind is unsupported; a missing period or year defaults to the current month, the quarter `(month-1)//3+1` holding the current month, or the current year |
| Dispatch.HandleReport | lib/Python.py:256-282 | the selected report is produced with the totals of its period; the year report's lines are ascending, match the dictionary and cover every key; the result is `false` exactly for an unsupported kind |
| Client.Next | lib/Python.py:127-130 | the cursor moves to `(cursor + 1) mod n`, wrapping from the last credential to the first |
| Client.NextIsStep | lib/Python.py:127-130 | one rotation from credential `c0 + i` reaches credential `c0 + i + 1`, cyclically |
| Client.AttemptsClosedForm | lib/Python.py:112-136 | attempt `i` uses credential `c0 + i`; the loop stops at the first attempt that does not fail, or after the last allowed attempt; the cursor is left on the last credential used |
| Client.CallBound | lib/Python.py:107-112 | a call makes at most `max_retries` calls, defaulting to the number of credentials, and none when that bound is not positive |
| Client.AllFailExhausts | lib/Python.py:134-136 | when every allowed attempt fails, the call ends with "failed after N attempts" after exactly N calls, and the last failure does not rotate |
| Client.FirstSuccessReturned | lib/Python.py:118-121 | the first successful attempt's text is returned, no further call is made and the cursor stays on its credential |
| Client.RotatingClient.constructor | lib/Python.py:284-286 | the client starts with cursor 0, bound to the first credential |
| Client.RotatingClient.Call | lib/Python.py:104-136 | the loop's result, final cursor and number of calls are those of the retry specification; the client stays bound to the credential under the cursor |
| Client.CursorCarriesOver | lib/Python.py:104-136 | with the first of three credentials failing, the first call takes two attempts; the next call starts on the second credential and takes one |

## Left out

- Prompt construction (`prompt_type_input`, `write_prompt_text`) is text templating for the model service. It is not modelled. In `lib/Python.py`, `write_prompt_text` appears indented under `prompt_type_input`, after its `return` (line 48), and the file has non-Python header lines (1, 15). It reads as a notebook export, so the model treats it as a top-level function.
- The interactive loop (lines 288-320) is not modelled as a whole: console input and output, `json.loads`, the classification branches and the final listing. Its entry branch (lines 303-309) is modelled by `Records.Ledger.Submit`.
- All printing, including the report layouts and the rotation diagnostics, is left out; the reports are returned as values.
- The profit margin `(loi_nhuan/tong_doanh_thu)*100` is floating point. Only whether it is printed is modelled (`showsMargin`, exactly when revenue is positive).
- The model service (`genai.Client`, `generate_content`) is the parameter `Client.Oracle`, a function of credential, model name and prompt. A reply without a `text` attribute, failures while constructing a client, and non-determinism of the service are not modelled.
- Client.RotatingClient.Call: the model returns the response text rather than the response object. An exhausted call returns `Exhausted(N)` instead of raising. A bound of zero or less returns `NoAnswer`, matching the implicit `None`.
- The clock `datetime.now()` is a parameter (`now`). Time zones are not modelled.
- `datetime.strptime` and `datetime.fromisoformat` are parameters: the model fixes the order of attempts and the fallbacks, not what each format accepts.
- The `FinanceRecord` / `Report` classes and `lst_data` are not part of this model. `lst_data` is used but never assigned in the file; the ledger is modelled by `Records.Ledger`.
- Record ids: the source always passes id 0 (line 303), and the model follows it.
- Records.TotalRevenue: the `try`/`except` returning 0 catches only attribute or type errors on malformed records; records here are always well typed, so that path cannot arise.
- Values of JSON fields other than integers (amounts, period, year) are not modelled; the extracted amounts are `int`.
- Dispatch.Select: a key present in the JSON with value `null` is treated like a missing key, so the default applies. Python's `get` would return `None` there.

## Findings

| source | as written | input that shows it | evidently intended | confidence | as-written member | corrected member |
|---|---|---|---|---|---|---|
| lib/Python.py:303 | the entry's creation time is `format_strin_to_datetime("ngay_tao")`, i.e. the literal sentinel, so every entry is dated now | extracted `ngay_tao` = "2024-01-15", entered on 2025-07-10: recorded on 2025-07-10 | normalise the extracted field `data["ngay_tao"]`, as the prompt asks the model to supply it | not executed; high that the date is lost, medium that it was not meant | Records.EntryAsWritten, Records.EntryAsWrittenLosesDate, Records.Ledger.Submit | Records.Entry, Records.EntryDatedByExtractedDate, Records.Ledger.SubmitCorrected |
