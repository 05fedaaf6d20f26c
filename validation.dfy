/**
 * The appointment form's field validators: each maps the raw text of one
 * field to an optional error message, checked in a fixed order, and the
 * form validator collects the four results into one record.
 */
module Validation {
  import opened Wrappers
  import opened Strings
  import opened Calendar

  /** One optional message per form field; the empty record `{}` has none. */
  datatype ValidationErrors = ValidationErrors(
    nome: Option<string>,
    servico: Option<string>,
    data: Option<string>,
    hora: Option<string>)

  const NoErrors := ValidationErrors(None, None, None, None)

  /** The accepted range of trimmed lengths for the name and the service. */
  const MinLength := 3
  const MaxLength := 100

  const NomeRequired := "Nome é obrigatório"
  const NomeTooShort := "Nome deve ter pelo menos 3 caracteres"
  const NomeTooLong := "Nome deve ter no máximo 100 caracteres"

  const ServicoRequired := "Serviço é obrigatório"
  const ServicoTooShort := "Serviço deve ter pelo menos 3 caracteres"
  const ServicoTooLong := "Serviço deve ter no máximo 100 caracteres"

  const DataRequired := "Data é obrigatória"
  const DataBadFormat := "Data inválida. Use o formato DD/MM/AAAA"
  const DataInvalid := "Data inválida"
  const DataInPast := "Data não pode ser no passado"

  const HoraRequired := "Hora é obrigatória"
  const HoraBadFormat := "Hora inválida. Use o formato HH:mm"
  const HoraOutOfHours := "Horário deve ser entre 08:00 e 18:00"

  /** Opening and closing time of the working day, in minutes since midnight. */
  const StartTime := 8 * 60
  const EndTime := 18 * 60

  /** The three messages of a length rule, in the order they are tried. */
  datatype LengthMessages = LengthMessages(required: string, tooShort: string, tooLong: string)

  /**
   * The rule shared by the name and the service: the trimmed text must be
   * 3 to 100 characters long; blank text is reported as missing, shorter
   * text as too short, longer text as too long.
   */
  function ValidateTrimmedLength(s: string, msgs: LengthMessages): (r: Option<string>)
    ensures AllWhitespace(s) ==> r == Some(msgs.required)
    ensures !AllWhitespace(s) && |Trim(s)| < MinLength ==> r == Some(msgs.tooShort)
    ensures |Trim(s)| > MaxLength ==> r == Some(msgs.tooLong)
    ensures r == None <==> MinLength <= |Trim(s)| <= MaxLength
  {
    if s == [] || |Trim(s)| == 0 then Some(msgs.required)
    else if |Trim(s)| < MinLength then Some(msgs.tooShort)
    else if |Trim(s)| > MaxLength then Some(msgs.tooLong)
    else None
  }

  function ValidateNome(nome: string): (r: Option<string>)
    ensures r == Some(NomeRequired) <==> AllWhitespace(nome)
    ensures r == Some(NomeTooShort) <==> !AllWhitespace(nome) && |Trim(nome)| < MinLength
    ensures r == Some(NomeTooLong) <==> |Trim(nome)| > MaxLength
    ensures r == None <==> MinLength <= |Trim(nome)| <= MaxLength
  {
    ValidateTrimmedLength(nome, LengthMessages(NomeRequired, NomeTooShort, NomeTooLong))
  }

  function ValidateServico(servico: string): (r: Option<string>)
    ensures r == Some(ServicoRequired) <==> AllWhitespace(servico)
    ensures r == Some(ServicoTooShort) <==> !AllWhitespace(servico) && |Trim(servico)| < MinLength
    ensures r == Some(ServicoTooLong) <==> |Trim(servico)| > MaxLength
    ensures r == None <==> MinLength <= |Trim(servico)| <= MaxLength
  {
    ValidateTrimmedLength(servico, LengthMessages(ServicoRequired, ServicoTooShort, ServicoTooLong))
  }

  /** Whitespace around a name or a service never changes its verdict. */
  lemma LengthRulesIgnorePadding(a: string, s: string, b: string)
    requires AllWhitespace(a) && AllWhitespace(b)
    ensures ValidateNome(a + s + b) == ValidateNome(s)
    ensures ValidateServico(a + s + b) == ValidateServico(s)
  {
    TrimIgnoresPadding(a, s, b);
  }

  /** `^\d{4}-\d{2}-\d{2}$`: four digits, a dash, two digits, a dash, two digits, nothing else. */
  predicate MatchesDatePattern(s: string)
  {
    |s| == 10 && s[4] == '-' && s[7] == '-'
    && IsDigit(s[0]) && IsDigit(s[1]) && IsDigit(s[2]) && IsDigit(s[3])
    && IsDigit(s[5]) && IsDigit(s[6]) && IsDigit(s[8]) && IsDigit(s[9])
  }

  /** The year, month and day fields of a `yyyy-MM-dd` string, read as numbers. */
  function DateFields(s: string): (d: Date)
    requires MatchesDatePattern(s)
    ensures 0 <= d.year <= 9999 && 0 <= d.month <= 99 && 0 <= d.day <= 99
  {
    assert AllDigits(s[0..4]) && AllDigits(s[5..7]) && AllDigits(s[8..10]);
    Date(DigitsValue(s[0..4]), DigitsValue(s[5..7]), DigitsValue(s[8..10]))
  }

  /**
   * The date rule, with the current day passed in: required, then the
   * `YYYY-MM-DD` shape, then a real calendar date, then not before today.
   * A date is past when it is not after today's midnight and does not format
   * to the same day as today.
   */
  function ValidateData(data: string, today: Date): (r: Option<string>)
    ensures r == Some(DataRequired) <==> data == ""
    ensures r == Some(DataBadFormat) <==> data != "" && !MatchesDatePattern(data)
    ensures r == Some(DataInvalid) <==> MatchesDatePattern(data) && !IsValidDate(DateFields(data))
    ensures IsValidDate(today) ==>
              (r == Some(DataInPast) <==>
                 MatchesDatePattern(data) && IsValidDate(DateFields(data)) && Before(DateFields(data), today))
    ensures IsValidDate(today) ==>
              (r == None <==>
                 MatchesDatePattern(data) && IsValidDate(DateFields(data)) && !Before(DateFields(data), today))
  {
    if data == "" then Some(DataRequired)
    else if !MatchesDatePattern(data) then Some(DataBadFormat)
    else
      var selected := DateFields(data);
      if !IsValidDate(selected) then Some(DataInvalid)
      else
        assert IsValidDate(today) ==>
                 (!IsAfter(selected, today) && selected != today <==> Before(selected, today)) by {
          if IsValidDate(today) { DayNumberOrder(selected, today); }
        }
        if !IsAfter(selected, today) && selected != today then Some(DataInPast)
        else None
  }

  /** The digit character for n. */
  function DigitChar(n: nat): (c: char)
    requires n <= 9
    ensures IsDigit(c) && DigitValue(c) == n
  {
    ('0' as int + n) as char
  }

  /** n written with exactly two digits, a leading zero if need be. */
  function TwoDigits(n: nat): (s: string)
    requires n <= 99
    ensures |s| == 2 && AllDigits(s) && DigitsValue(s) == n
  {
    var s := [DigitChar(n / 10), DigitChar(n % 10)];
    DigitsValueShort(s);
    s
  }

  /** n written with exactly four digits, leading zeros if need be. */
  function FourDigits(n: nat): (s: string)
    requires n <= 9999
    ensures |s| == 4 && AllDigits(s) && DigitsValue(s) == n
  {
    var s := TwoDigits(n / 100) + TwoDigits(n % 100);
    FourDigitsValue(s);
    DigitsValueShort(s[..2]);
    DigitsValueShort(s[2..]);
    s
  }

  /** `format(d, 'yyyy-MM-dd')` for a date whose year has at most four digits. */
  function FormatDate(d: Date): (s: string)
    requires 0 <= d.year <= 9999 && 0 <= d.month <= 99 && 0 <= d.day <= 99
    ensures MatchesDatePattern(s)
    ensures DateFields(s) == d
  {
    var s := FourDigits(d.year) + "-" + TwoDigits(d.month) + "-" + TwoDigits(d.day);
    assert s[0..4] == FourDigits(d.year) && s[5..7] == TwoDigits(d.month) && s[8..10] == TwoDigits(d.day);
    s
  }

  lemma {:induction false} FourDigitsValue(s: string)
    requires |s| == 4 && AllDigits(s)
    ensures DigitsValue(s) == 1000 * DigitValue(s[0]) + 100 * DigitValue(s[1]) + 10 * DigitValue(s[2]) + DigitValue(s[3])
  {
    assert s[..3][..2] == s[..2];
    DigitsValueShort(s[..2]);
    assert DigitsValue(s[..3]) == 10 * DigitsValue(s[..2]) + DigitValue(s[2]);
  }

  /** The fields of a date string, digit by digit. */
  lemma DateFieldsByDigit(s: string)
    requires MatchesDatePattern(s)
    ensures DateFields(s) == Date(
      1000 * DigitValue(s[0]) + 100 * DigitValue(s[1]) + 10 * DigitValue(s[2]) + DigitValue(s[3]),
      10 * DigitValue(s[5]) + DigitValue(s[6]),
      10 * DigitValue(s[8]) + DigitValue(s[9]))
  {
    FourDigitsValue(s[0..4]);
    DigitsValueShort(s[5..7]);
    DigitsValueShort(s[8..10]);
  }

  /** Formatting the fields read from a date string gives the string back. */
  lemma DateFieldsRoundTrip(s: string)
    requires MatchesDatePattern(s)
    ensures FormatDate(DateFields(s)) == s
  {
    var t := FormatDate(DateFields(s));
    assert AllDigits(s[0..4]) && AllDigits(s[5..7]) && AllDigits(s[8..10]);
    assert AllDigits(t[0..4]) && AllDigits(t[5..7]) && AllDigits(t[8..10]);
    DigitsValueInjective(s[0..4], t[0..4]);
    DigitsValueInjective(s[5..7], t[5..7]);
    DigitsValueInjective(s[8..10], t[8..10]);
    assert s == s[0..4] + "-" + s[5..7] + "-" + s[8..10];
    assert t == t[0..4] + "-" + t[5..7] + "-" + t[8..10];
  }

  /** Today's own date is accepted: the rule compares calendar days, not instants. */
  lemma TodayAccepted(today: Date)
    requires IsValidDate(today) && today.year <= 9999
    ensures ValidateData(FormatDate(today), today) == None
  {
  }

  /** Month 13 and 30 February are not dates. */
  lemma DataNotADate(today: Date)
    ensures ValidateData("2026-13-01", today) == Some(DataInvalid)
    ensures ValidateData("2027-02-30", today) == Some(DataInvalid)
  {
    DateFieldsByDigit("2026-13-01");
    DateFieldsByDigit("2027-02-30");
  }

  /** 29 February outside a leap year is not a date. */
  lemma DataLeapDayCommonYear(today: Date)
    ensures ValidateData("2027-02-29", today) == Some(DataInvalid)
  {
    var s := "2027-02-29";
    DateFieldsByDigit(s);
    assert DateFields(s) == Date(2027, 2, 29);
    assert !IsLeapYear(2027);
    assert !IsValidDate(DateFields(s));
  }

  /** 29 February of a leap year is a date. */
  lemma DataLeapDayLeapYear(today: Date)
    ensures ValidateData("2024-02-29", today) != Some(DataInvalid)
  {
    var s := "2024-02-29";
    DateFieldsByDigit(s);
    assert IsLeapYear(2024);
    assert IsValidDate(DateFields(s));
  }

  /** One hour digit, or two digits from 00 to 23: the `[0-1]?[0-9]|2[0-3]` alternation. */
  predicate IsHourText(h: string)
  {
    (|h| == 1 && IsDigit(h[0]))
    || (|h| == 2 && (h[0] == '0' || h[0] == '1') && IsDigit(h[1]))
    || (|h| == 2 && h[0] == '2' && '0' <= h[1] <= '3')
  }

  /** `^([0-1]?[0-9]|2[0-3]):[0-5][0-9]$`: an hour, a colon, then two minute digits 00 to 59. */
  predicate MatchesHoraPattern(s: string)
  {
    |s| >= 4 && s[|s| - 3] == ':' && IsHourText(s[..|s| - 3])
    && '0' <= s[|s| - 2] <= '5' && IsDigit(s[|s| - 1])
  }

  /** The hour written before the colon of a well-shaped time. */
  function HourOf(s: string): (h: nat)
    requires MatchesHoraPattern(s)
    ensures h <= 23
  {
    var t := s[..|s| - 3];
    DigitsValueShort(t);
    DigitsValue(t)
  }

  /** The minutes written after the colon of a well-shaped time. */
  function MinuteOf(s: string): (m: nat)
    requires MatchesHoraPattern(s)
    ensures m <= 59
  {
    var t := s[|s| - 2..];
    DigitsValueShort(t);
    DigitsValue(t)
  }

  /** A well-shaped time splits at its colon into the hour text and the minute text. */
  lemma SplitTime(s: string)
    requires MatchesHoraPattern(s)
    ensures Split(s, ':') == [s[..|s| - 3], s[|s| - 2..]]
  {
    var a, b := s[..|s| - 3], s[|s| - 2..];
    assert s == a + [':'] + b;
    SplitOnce(a, b, ':');
  }

  /**
   * The time rule: required, then the `H:mm`/`HH:mm` shape, then the
   * minutes since midnight must fall in the working day [08:00, 18:00).
   */
  function ValidateHora(hora: string): (r: Option<string>)
    ensures r == Some(HoraRequired) <==> hora == ""
    ensures r == Some(HoraBadFormat) <==> hora != "" && !MatchesHoraPattern(hora)
    ensures MatchesHoraPattern(hora) ==>
              (r == None <==> StartTime <= HourOf(hora) * 60 + MinuteOf(hora) < EndTime)
    ensures !MatchesHoraPattern(hora) || r == None || r == Some(HoraOutOfHours)
  {
    if hora == "" then Some(HoraRequired)
    else if !MatchesHoraPattern(hora) then Some(HoraBadFormat)
    else
      SplitTime(hora);
      var parts := Split(hora, ':');
      var hours := DigitsValue(parts[0]);
      var minutes := DigitsValue(parts[1]);
      var totalMinutes := hours * 60 + minutes;
      if totalMinutes < StartTime || totalMinutes >= EndTime then Some(HoraOutOfHours)
      else None
  }

  /** A well-shaped time is accepted exactly when its hour is 8 to 17, whatever its minutes. */
  lemma HoraAcceptedByHour(hora: string)
    requires MatchesHoraPattern(hora)
    ensures ValidateHora(hora) == None <==> 8 <= HourOf(hora) <= 17
  {
  }

  /** The hour and minutes of a five-character time, digit by digit. */
  lemma TwoDigitTime(s: string)
    requires |s| == 5 && MatchesHoraPattern(s)
    ensures HourOf(s) == 10 * DigitValue(s[0]) + DigitValue(s[1])
    ensures MinuteOf(s) == 10 * DigitValue(s[3]) + DigitValue(s[4])
  {
    DigitsValueShort(s[..2]);
    DigitsValueShort(s[3..]);
  }

  /** The opening boundary: 08:00 is accepted, 07:59 is not. */
  lemma HoraOpening()
    ensures ValidateHora("08:00") == None
    ensures ValidateHora("07:59") == Some(HoraOutOfHours)
  {
    var a, b := "08:00", "07:59";
    assert a[..2] == "08" && b[..2] == "07";
    TwoDigitTime(a);
    TwoDigitTime(b);
  }

  /** The closing boundary is exclusive: 17:59 is accepted, 18:00 is not. */
  lemma HoraClosing()
    ensures ValidateHora("17:59") == None
    ensures ValidateHora("18:00") == Some(HoraOutOfHours)
  {
    var a, b := "17:59", "18:00";
    assert a[..2] == "17" && b[..2] == "18";
    TwoDigitTime(a);
    TwoDigitTime(b);
  }

  /** A one-digit hour passes the shape check: 9:15 is accepted. */
  lemma HoraOneDigitHour()
    ensures ValidateHora("9:15") == None
  {
    var a := "9:15";
    assert a[..1] == "9" && a[2..] == "15";
    assert MatchesHoraPattern(a);
    DigitsValueShort(a[..1]);
    DigitsValueShort(a[2..]);
  }

  /** Hour 24 and a one-digit minute fail the shape check. */
  lemma HoraBadShapes()
    ensures ValidateHora("24:00") == Some(HoraBadFormat)
    ensures ValidateHora("8:5") == Some(HoraBadFormat)
  {
    assert "24:00"[..2] == "24";
    assert "8:5"[..0] == "";
  }

  /** Every field validated on its own, none skipped. */
  function ValidateAgendamentoForm(nome: string, servico: string, data: string, hora: string, today: Date)
    : (r: ValidationErrors)
    ensures r.nome == ValidateNome(nome) && r.servico == ValidateServico(servico)
    ensures r.data == ValidateData(data, today) && r.hora == ValidateHora(hora)
  {
    ValidationErrors(ValidateNome(nome), ValidateServico(servico), ValidateData(data, today), ValidateHora(hora))
  }

  /** The values of the record, in field order (`Object.values`). */
  function Values(e: ValidationErrors): (vs: seq<Option<string>>)
    ensures |vs| == 4
  {
    [e.nome, e.servico, e.data, e.hora]
  }

  /** Whether some entry of vs is defined (`vs.some(v => v !== undefined)`). */
  function AnyDefined(vs: seq<Option<string>>): (b: bool)
    ensures b <==> exists k :: 0 <= k < |vs| && vs[k].Some?
  {
    if vs == [] then false
    else
      var rest := AnyDefined(vs[1..]);
      assert forall k :: 1 <= k < |vs| ==> vs[k] == vs[1..][k - 1];
      vs[0].Some? || rest
  }

  /** Whether the record holds at least one message. */
  function HasValidationErrors(e: ValidationErrors): (b: bool)
    ensures b <==> e.nome.Some? || e.servico.Some? || e.data.Some? || e.hora.Some?
    ensures !b <==> e == NoErrors
  {
    var vs := Values(e);
    assert vs[0] == e.nome && vs[1] == e.servico && vs[2] == e.data && vs[3] == e.hora;
    AnyDefined(vs)
  }

  /**
   * A form has errors exactly when some field fails its own rule; when it
   * has none, the record is the empty one.
   */
  lemma FormErrorsIffSomeFieldFails(nome: string, servico: string, data: string, hora: string, today: Date)
    ensures var e := ValidateAgendamentoForm(nome, servico, data, hora, today);
      (HasValidationErrors(e) <==>
         ValidateNome(nome).Some? || ValidateServico(servico).Some?
         || ValidateData(data, today).Some? || ValidateHora(hora).Some?)
      && (!HasValidationErrors(e) ==> e == NoErrors)
  {
  }

  /** A form that passes: every field meets its rule. */
  lemma FormAcceptedIff(nome: string, servico: string, data: string, hora: string, today: Date)
    requires IsValidDate(today)
    ensures !HasValidationErrors(ValidateAgendamentoForm(nome, servico, data, hora, today)) <==>
      MinLength <= |Trim(nome)| <= MaxLength
      && MinLength <= |Trim(servico)| <= MaxLength
      && MatchesDatePattern(data) && IsValidDate(DateFields(data)) && !Before(DateFields(data), today)
      && MatchesHoraPattern(hora) && 8 <= HourOf(hora) <= 17
  {
    if MatchesHoraPattern(hora) {
      HoraAcceptedByHour(hora);
    }
  }

  /** A two-letter name is too short, and only that field is reported. */
  lemma ShortNameScenario(today: Date)
    requires IsValidDate(today) && today.year < 2099
    ensures ValidateAgendamentoForm("Jo", "Haircut", "2099-01-01", "10:00", today)
              == ValidationErrors(Some(NomeTooShort), None, None, None)
    ensures HasValidationErrors(ValidateAgendamentoForm("Jo", "Haircut", "2099-01-01", "10:00", today))
  {
    ScenarioText();
    ScenarioDate(today);
    ScenarioTime();
  }

  lemma ScenarioText()
    ensures ValidateNome("Jo") == Some(NomeTooShort) && ValidateServico("Haircut") == None
  {
    TrimKeepsUnpadded("Jo");
    TrimKeepsUnpadded("Haircut");
  }

  lemma ScenarioTime()
    ensures ValidateHora("10:00") == None
  {
    var h := "10:00";
    assert h[..2] == "10";
    TwoDigitTime(h);
  }

  lemma ScenarioDate(today: Date)
    requires IsValidDate(today) && today.year < 2099
    ensures ValidateData("2099-01-01", today) == None
  {
    DateFieldsByDigit("2099-01-01");
    assert DateFields("2099-01-01") == Date(2099, 1, 1);
  }
}
