# Appointment form validation, form state and error messages

A Dafny model of the logic of an appointment-scheduling web front-end
(`agendamentos-app`). The model covers three parts:

- **Field validators** (`src/utils/validation.ts`). The name (`nome`) and the
  service (`servico`) must be 3 to 100 characters long once trimmed. The date
  (`data`) must have the `YYYY-MM-DD` shape, be a real Gregorian date and not
  fall before today. The time (`hora`) must have the `H:mm`/`HH:mm` shape and
  fall in the working day [08:00, 18:00). `validateAgendamentoForm` collects
  the four results into one record, and `hasValidationErrors` says whether
  that record holds any message. Module `Validation`, with the string
  operations in `Strings` and the calendar in `Calendar`.
- **The form's state machine** (`src/components/AgendamentoForm.tsx`,
  handlers only). It is a class holding the four field texts, the errors
  record and the touched map. It has the blur, change and submit handlers. The
  submit handler is split at its `await`: `BeginSubmit` runs the part before
  the callback and `FinishSubmit` the part after it. Module `Form`.
- **The error-message normaliser** (`getErrorMessage` in
  `src/services/api.ts`). It picks the message shown for a caught failure, in
  a fixed priority order. Module `Api`.

Inputs the code takes from its environment are parameters of the model:

- the current day is a `today: Calendar.Date` argument wherever validation happens;
- the outcome of the awaited `onSubmit` callback is a `bool` argument of `HandleSubmit` (and `FinishSubmit`);
- the caught value of `getErrorMessage` is a `CaughtError`: either `NotAxios`, or `Axios(responseMessage, message, code)`.

Modelling choices:

- **Strings.** Strings are sequences of characters. `trim` removes the
  ECMAScript WhiteSpace and LineTerminator code points listed in
  `Strings.IsWhitespace`.
- **The date parser.** date-fns `parse` is replaced by an explicit validity
  rule: month 1 to 12, a day that fits the month, and 29 February only in
  Gregorian leap years. Year `0000` counts as invalid, because the parser's
  year field accepts only positive years.
- **Date comparison.** `isAfter` on two local midnights is a comparison of
  day numbers (`Calendar.DayNumber`). `Calendar.DayNumberOrder` proves that
  comparing day numbers orders dates the way the calendar does. The test
  `format(selected) !== format(today)` is modelled as the two dates being
  different. `Validation.DateFieldsRoundTrip` and `Validation.FormatDate` show
  that the `yyyy-MM-dd` text and the date fields carry the same information.
- **Time parsing.** `split(':').map(Number)` is modelled with `Strings.Split`
  and `Strings.DigitsValue`. `Validation.SplitTime` proves that a well-shaped
  time splits into its hour text and its minute text.
- **Messages.** The date-format message says `DD/MM/AAAA`, although the shape
  checked is `YYYY-MM-DD`. The model keeps the message as written.
- **Empty error message.** `getErrorMessage` can return an empty string. An
  error with an empty message and no timeout code is passed through
  unchanged. `Api.EmptyMessagePassesThrough` exhibits this case, and
  `Api.GetErrorMessage` states exactly when the result is empty.
- **Empty errors record.** An errors record is a value with four optional
  messages. The empty record `{}` and a record whose entries are all
  `undefined` are the same value (`Validation.NoErrors`). Nothing in the code
  can tell them apart.

## Model

| member | source | states |
|---|---|---|
| Strings.Trim | src/utils/validation.ts:12-20 | `trim()`: the result is the slice of the input after its leading whitespace, everything cut off is whitespace, neither end of a non-empty result is whitespace, and the result is empty exactly when the input is all whitespace |
| Strings.TrimUnique | src/utils/validation.ts:12-20 | the trim is the only way to write the input as whitespace, a middle that neither starts nor ends with whitespace, and whitespace |
| Strings.TrimIgnoresPadding | src/utils/validation.ts:12-20 | whitespace added on either side does not change the trim |
| Strings.TrimIdempotent | src/utils/validation.ts:12-20 | trimming twice gives what trimming once gives |
| Strings.TrimKeepsUnpadded | src/utils/validation.ts:12-20 | a text that neither starts nor ends with whitespace is its own trim |
| Strings.Split | src/utils/validation.ts:93 | `split(':')`: at least one part, no part contains the separator, and joining the parts with it gives the input back |
| Strings.SplitOnce | src/utils/validation.ts:93 | a text with exactly one separator splits into the text before it and the text after it |
| Strings.SplitWithoutSeparator | src/utils/validation.ts:93 | a text without the separator splits into itself alone |
| Strings.DigitsValue | src/utils/validation.ts:93 | `Number` of a digit string: its decimal value, below 10 to the power of its length |
| Strings.DigitsValueShort | src/utils/validation.ts:93 | the values of one- and two-digit strings, written digit by digit |
| Strings.DigitsValueInjective | src/utils/validation.ts:93 | two digit strings of one length with the same value are equal |
| Calendar.DaysInMonth | src/utils/validation.ts:58-64 | each month has 28 to 31 days, and February has 29 exactly in leap years |
| Calendar.MonthsFillYear | src/utils/validation.ts:58-64 | the twelve month lengths add up to 365 days, or 366 in a leap year |
| Calendar.DayWithinYear | src/utils/validation.ts:66-72 | a valid date's day number lies between the first day of its year and the first day of the next year |
| Calendar.BeforeImpliesSmallerDayNumber | src/utils/validation.ts:66-72 | an earlier calendar date has a smaller day number |
| Calendar.DayNumberOrder | src/utils/validation.ts:66-72 | on valid dates, a smaller day number means an earlier date and the reverse also holds; equal day numbers means the same date |
| Validation.ValidateTrimmedLength | src/utils/validation.ts:11-42 | the shared length rule: blank input gives the required message, a trimmed length under 3 gives too short, over 100 gives too long, and no error exactly when the trimmed length is 3 to 100 |
| Validation.ValidateNome | src/utils/validation.ts:11-25 | "Nome é obrigatório" exactly for blank input, "pelo menos 3" exactly for non-blank input under 3 trimmed characters, "no máximo 100" exactly above 100, no error exactly for 3 to 100 |
| Validation.ValidateServico | src/utils/validation.ts:28-42 | the same three-way precedence and the same closed range [3, 100] as the name, with the service's messages |
| Validation.LengthRulesIgnorePadding | src/utils/validation.ts:11-42 | whitespace around a name or a service never changes its verdict |
| Validation.DateFields | src/utils/validation.ts:52-58 | reading a `yyyy-MM-dd` text gives a year of at most four digits and a month and a day of at most two digits |
| Validation.ValidateData | src/utils/validation.ts:45-78 | "Data é obrigatória" exactly for the empty string, the format message exactly for a non-empty text off the `\d{4}-\d{2}-\d{2}` shape, "Data inválida" exactly for a well-shaped text that is not a real date, and, for a valid today, "não pode ser no passado" exactly for an earlier date and no error exactly for today or later |
| Validation.FormatDate | src/utils/validation.ts:69 | `format(d, 'yyyy-MM-dd')` has the date shape and reads back as the same date |
| Validation.DateFieldsRoundTrip | src/utils/validation.ts:52-69 | formatting the fields read from a well-shaped date text gives the text back |
| Validation.DateFieldsByDigit | src/utils/validation.ts:52-58 | the year, month and day read from a date text, computed digit by digit |
| Validation.TodayAccepted | src/utils/validation.ts:66-74 | today's own date passes, whatever the time of day |
| Validation.DataNotADate | src/utils/validation.ts:58-64 | month 13 and 30 February give "Data inválida" |
| Validation.DataLeapDayCommonYear | src/utils/validation.ts:58-64 | 29 February outside a leap year gives "Data inválida" |
| Validation.DataLeapDayLeapYear | src/utils/validation.ts:58-64 | 29 February of a leap year is a real date |
| Validation.HourOf | src/utils/validation.ts:87-93 | the hour of a well-shaped time is at most 23 |
| Validation.MinuteOf | src/utils/validation.ts:87-93 | the minutes of a well-shaped time are at most 59 |
| Validation.SplitTime | src/utils/validation.ts:87-93 | a well-shaped time splits at its colon into exactly the hour text and the minute text |
| Validation.ValidateHora | src/utils/validation.ts:81-103 | "Hora é obrigatória" exactly for the empty string, the format message exactly for a non-empty text not matching `^([0-1]?[0-9]\|2[0-3]):[0-5][0-9]$`, and for a well-shaped time no error exactly when 480 <= hours * 60 + minutes < 1080, otherwise the working-hours message |
| Validation.HoraAcceptedByHour | src/utils/validation.ts:92-100 | a well-shaped time is accepted exactly when its hour is 8 to 17, whatever its minutes |
| Validation.TwoDigitTime | src/utils/validation.ts:93-94 | the hour and minutes of a five-character time, digit by digit |
| Validation.HoraOpening | src/utils/validation.ts:95-98 | 08:00 is accepted and 07:59 is rejected with the working-hours message |
| Validation.HoraClosing | src/utils/validation.ts:95-98 | 17:59 is accepted and 18:00 is rejected: the closing time is exclusive |
| Validation.HoraOneDigitHour | src/utils/validation.ts:87-90 | a one-digit hour such as 9:15 passes the shape check and is accepted |
| Validation.HoraBadShapes | src/utils/validation.ts:87-90 | 24:00 and 8:5 get the format message |
| Validation.ValidateAgendamentoForm | src/utils/validation.ts:106-118 | each field of the record is that field's own validator applied to that field's text, with no short-circuit |
| Validation.AnyDefined | src/utils/validation.ts:122 | `some(v => v !== undefined)`: true exactly when some entry is defined |
| Validation.HasValidationErrors | src/utils/validation.ts:121-123 | true exactly when at least one of the four fields has a message; false exactly for the empty record |
| Validation.FormErrorsIffSomeFieldFails | src/utils/validation.ts:106-123 | a form has errors exactly when some field fails its own rule; if it has none, the record is the empty one |
| Validation.FormAcceptedIff | src/utils/validation.ts:106-123 | a form passes exactly when both trimmed lengths are 3 to 100, the date is real and not before today, and the time is well-shaped with an hour from 8 to 17 |
| Validation.ShortNameScenario | src/utils/validation.ts:106-123 | ("Jo", "Haircut", "2099-01-01", "10:00") reports only that the name is too short, and so has errors |
| Form.ClearError | src/components/AgendamentoForm.tsx:65 | `{ ...prev, f: undefined }`: the entry of f becomes undefined and every other entry is kept |
| Form.AgendamentoForm.constructor | src/components/AgendamentoForm.tsx:17-22 | initial state: empty texts, `{}` errors, `{}` touched, invariant established |
| Form.AgendamentoForm.HandleBlur | src/components/AgendamentoForm.tsx:27-29 | `touched[f]` becomes true; the other touched entries, the four texts and the errors are unchanged |
| Form.AgendamentoForm.HandleNomeChange | src/components/AgendamentoForm.tsx:62-67 | the name becomes the new text; its error is cleared only if the name was touched; the other texts, the other errors and the touched map are unchanged |
| Form.AgendamentoForm.HandleServicoChange | src/components/AgendamentoForm.tsx:69-74 | the same for the service field |
| Form.AgendamentoForm.HandleDataChange | src/components/AgendamentoForm.tsx:76-81 | the same for the date field |
| Form.AgendamentoForm.HandleHoraChange | src/components/AgendamentoForm.tsx:83-88 | the same for the time field |
| Form.AgendamentoForm.BeginSubmit | src/components/AgendamentoForm.tsx:34-48 | all four fields are touched, the errors become the validation of the current texts, and the draft is handed to the callback exactly when that validation has no errors; the texts are unchanged |
| Form.AgendamentoForm.FinishSubmit | src/components/AgendamentoForm.tsx:47-59 | on success the texts become empty and the errors and touched become `{}`; on failure nothing changes |
| Form.AgendamentoForm.HandleSubmit | src/components/AgendamentoForm.tsx:31-60 | with errors, nothing is sent and the texts stay; without, the current draft is sent; success resets the form; failure keeps the texts, an all-undefined errors record and all fields touched; the invariant "a field has a message only once touched" is kept throughout |
| Form.ChangeKeepsOtherErrors | src/components/AgendamentoForm.tsx:62-88 | a change to one field, whether or not it was touched, never alters another field's error |
| Api.GetErrorMessage | src/services/api.ts:75-95 | the unknown-error text for a non-client error; the server's non-empty message first; then the connection text for "Network Error"; then the timeout text for ECONNABORTED; then the raw message; the result is empty exactly when the raw message is empty and passes through |
| Api.ServerMessageWins | src/services/api.ts:79-81 | a non-empty server message is the result, whatever the message and the code hold |
| Api.NetworkErrorIgnoresCode | src/services/api.ts:83-85 | without a server message, "Network Error" gives the connection text whatever the code |
| Api.EmptyServerMessageIsNone | src/services/api.ts:79 | an empty server message counts as no server message |
| Api.EmptyMessagePassesThrough | src/services/api.ts:91 | an error with an empty message, no server message and no code produces the empty string |

## Left out

- The HTTP calls, the client configuration, the response interceptor and `handleApiError` (`src/services/api.ts:5-72`) are left out. They are network I/O and console logging, and return no value.
- `src/App.tsx` is left out: awaited API calls, the list refetch, the success message cleared after 3000 ms, the delete modal flags, and logging. These are asynchronous I/O.
- `src/hooks/useDarkMode.ts` is left out: it uses browser storage, the media query and the DOM class list.
- `formatarData` in `src/components/AgendamentoCard.tsx` is left out: it uses locale formatting with month names from a library this model does not include.
- All rendering is left out, including the `minDate` read of the clock at `src/components/AgendamentoForm.tsx:25`, the `isLoading` prop and `e.preventDefault()`.
- The `catch` branch of `validateData` (`src/utils/validation.ts:75-77`) is not modelled. Every step inside the `try` is total once the shape and validity checks have passed, so that branch cannot be reached in the model.
- Validation.ValidateData: the two clauses about past dates assume that `today` is a valid date. The clock always provides one.
- Validation.FormatDate: only years up to 9999 are covered. Those are the only years a four-digit date text can hold.
- Form.AgendamentoForm.HandleSubmit: the two halves of the handler run back to back. The model does not cover user events that arrive while the callback is still pending.
- Form.AgendamentoForm.HandleBlur: fields are the four names the markup passes in (`Form.Field`), not arbitrary strings.
- React's batching of state updates is not modelled. Within one handler, the updates take effect in program order, which gives the same final state.
- JavaScript's UTF-16 code units and Unicode category data are not modelled. Strings are sequences of characters, and the whitespace set is listed explicitly.
