/**
 * The HTTP handlers of the registration API: the guard chain of the public
 * create endpoint and the admin list, detail, update, delete and statistics
 * endpoints, each answering with the response envelope.
 */
module RegistrationController {
  import opened Wrappers
  import opened RegistrationTypes
  import opened Validator
  import opened Response
  import opened RegistrationStore

  const MsgRequired: string := "请填写所有必填项"
  const MsgIdCardFormat: string := "身份证号码格式不正确"
  const MsgPhoneFormat: string := "手机号码格式不正确"
  const MsgEmailFormat: string := "邮箱格式不正确"
  const MsgAttendanceType: string := "参会方式选择不正确"
  const MsgDuplicate: string := "该身份证号已报名，请勿重复提交"
  const MsgCreated: string := "报名成功"
  const MsgNotFound: string := "报名记录不存在"
  const MsgUpdated: string := "更新成功"
  const MsgDeleted: string := "删除成功"
  /** What the error middleware sends when the error has no message. */
  const MsgInternal: string := "服务器内部错误"
  /** A stand-in for the store's own error text for an id that is not a number; its wording is not modelled. */
  const MsgBadId: string := "Argument id is missing."

  // ---------------------------------------------------------------------
  // The create guard chain

  /** `['option1', 'option2', 'option3'].includes(t)` */
  predicate IsAttendanceType(t: string) {
    t == "option1" || t == "option2" || t == "option3"
  }

  /**
   * The message of the first guard of `create` that the request fails, or
   * None when every guard passes. A missing string field reads as "".
   */
  function AdmissionError(input: RegistrationInput, rows: seq<Registration>): Option<string> {
    var f := input.fields;
    if f.name == "" || f.idCard == "" || f.phone == "" || f.email == "" then Some(MsgRequired)
    else if !ValidateIdCard(f.idCard) then Some(MsgIdCardFormat)
    else if !ValidatePhone(f.phone) then Some(MsgPhoneFormat)
    else if !ValidateEmail(f.email) then Some(MsgEmailFormat)
    else if !IsAttendanceType(f.attendanceType) then Some(MsgAttendanceType)
    else if IdCardTaken(rows, f.idCard) then Some(MsgDuplicate)
    else None
  }

  /** The four required fields are present. */
  predicate RequiredPresent(f: Fields) {
    f.name != "" && f.idCard != "" && f.phone != "" && f.email != ""
  }

  /**
   * The guards run in a fixed order and only the first failing one speaks:
   * each message is sent exactly when every earlier guard passes and its own
   * guard fails. The required-field check comes before any format check.
   */
  lemma GuardOrder(input: RegistrationInput, rows: seq<Registration>)
    ensures var f, e := input.fields, AdmissionError(input, rows);
      && (e == Some(MsgRequired) <==> !RequiredPresent(f))
      && (e == Some(MsgIdCardFormat) <==> RequiredPresent(f) && !ValidateIdCard(f.idCard))
      && (e == Some(MsgPhoneFormat) <==>
            RequiredPresent(f) && ValidateIdCard(f.idCard) && !ValidatePhone(f.phone))
      && (e == Some(MsgEmailFormat) <==>
            RequiredPresent(f) && ValidateIdCard(f.idCard) && ValidatePhone(f.phone) && !ValidateEmail(f.email))
      && (e == Some(MsgAttendanceType) <==>
            RequiredPresent(f) && ValidateIdCard(f.idCard) && ValidatePhone(f.phone) && ValidateEmail(f.email)
            && !IsAttendanceType(f.attendanceType))
      && (e == Some(MsgDuplicate) <==>
            RequiredPresent(f) && ValidateIdCard(f.idCard) && ValidatePhone(f.phone) && ValidateEmail(f.email)
            && IsAttendanceType(f.attendanceType) && IdCardTaken(rows, f.idCard))
      && (e.None? <==>
            RequiredPresent(f) && ValidateIdCard(f.idCard) && ValidatePhone(f.phone) && ValidateEmail(f.email)
            && IsAttendanceType(f.attendanceType) && !IdCardTaken(rows, f.idCard))
  {
  }

  /**
   * The fee, the companions and the plus-ones count are never looked at:
   * two requests that differ only there are admitted or refused alike.
   */
  lemma PassThroughUnchecked(input: RegistrationInput, rows: seq<Registration>,
                             fee: int, count: int, companions: Option<seq<Companion>>)
    ensures AdmissionError(RegistrationInput(input.fields.(totalFee := fee, plusOnesCount := count), companions), rows)
         == AdmissionError(input, rows)
  {
  }

  /** No two rows carry the same ID card. */
  ghost predicate UniqueIdCards(rows: seq<Registration>) {
    forall i, j | 0 <= i < j < |rows| :: rows[i].fields.idCard != rows[j].fields.idCard
  }

  /** Every row carries a well-formed ID card, phone, email and attendance type. */
  ghost predicate WellFormedRows(rows: seq<Registration>) {
    forall i | 0 <= i < |rows| ::
      && ValidateIdCard(rows[i].fields.idCard)
      && ValidatePhone(rows[i].fields.phone)
      && ValidateEmail(rows[i].fields.email)
      && IsAttendanceType(rows[i].fields.attendanceType)
  }

  /**
   * An admitted insert keeps the ID cards of the table unique and every row
   * well formed: the duplicate check is the only guard of uniqueness.
   */
  lemma AdmittedInsertKeepsInvariants(rows: seq<Registration>, input: RegistrationInput, id: int, now: int)
    requires UniqueIdCards(rows) && WellFormedRows(rows)
    requires AdmissionError(input, rows).None?
    ensures UniqueIdCards(rows + [NewRow(id, input, now)])
    ensures WellFormedRows(rows + [NewRow(id, input, now)])
  {
    var t := rows + [NewRow(id, input, now)];
    forall i, j | 0 <= i < j < |t| ensures t[i].fields.idCard != t[j].fields.idCard {
      if j == |rows| {
        assert t[i] == rows[i];
      } else {
        assert t[i] == rows[i] && t[j] == rows[j];
      }
    }
    forall i | 0 <= i < |t|
      ensures ValidateIdCard(t[i].fields.idCard) && ValidatePhone(t[i].fields.phone)
      ensures ValidateEmail(t[i].fields.email) && IsAttendanceType(t[i].fields.attendanceType)
    {
      if i < |rows| {
        assert t[i] == rows[i];
      }
    }
  }

  /** A second submission with an ID card already stored is refused as a duplicate. */
  lemma SecondSubmissionRefused(rows: seq<Registration>, first: RegistrationInput, second: RegistrationInput,
                                id: int, now: int)
    requires AdmissionError(first, rows).None?
    requires second.fields.idCard == first.fields.idCard
    requires RequiredPresent(second.fields) && ValidatePhone(second.fields.phone)
    requires ValidateEmail(second.fields.email) && IsAttendanceType(second.fields.attendanceType)
    ensures AdmissionError(second, rows + [NewRow(id, first, now)]) == Some(MsgDuplicate)
  {
    var t := rows + [NewRow(id, first, now)];
    assert t[|rows|].fields.idCard == second.fields.idCard;
  }

  // ---------------------------------------------------------------------
  // `parseInt` on request parameters

  /** The characters of `s` from the first one that is not whitespace. */
  function TrimStart(s: string): (t: string)
    ensures |t| <= |s| && t == s[|s| - |t|..]
    ensures t == [] || !IsWhitespace(t[0])
    ensures forall k | 0 <= k < |s| - |t| :: IsWhitespace(s[k])
  {
    if s == [] || !IsWhitespace(s[0]) then s
    else
      var t := TrimStart(s[1..]);
      assert forall k | 1 <= k < |s| - |t| :: s[k] == s[1..][k - 1];
      t
  }

  /** The longest prefix of `s` made of decimal digits. */
  function LeadingDigits(s: string): (d: string)
    ensures |d| <= |s| && d == s[..|d|]
    ensures AllDigits(d)
    ensures |d| < |s| ==> !IsDigit(s[|d|])
  {
    if s == [] || !IsDigit(s[0]) then []
    else
      var d := LeadingDigits(s[1..]);
      assert forall k | 1 <= k < |d| + 1 :: ([s[0]] + d)[k] == d[k - 1];
      [s[0]] + d
  }

  /** The longest prefix of `s` made of hexadecimal digits. */
  function LeadingHexDigits(s: string): (d: string)
    ensures |d| <= |s| && d == s[..|d|]
    ensures forall k | 0 <= k < |d| :: IsHexDigit(d[k])
    ensures |d| < |s| ==> !IsHexDigit(s[|d|])
  {
    if s == [] || !IsHexDigit(s[0]) then []
    else
      var d := LeadingHexDigits(s[1..]);
      assert forall k | 1 <= k < |d| + 1 :: ([s[0]] + d)[k] == d[k - 1];
      [s[0]] + d
  }

  predicate IsHexDigit(c: char) {
    IsDigit(c) || 'a' <= c <= 'f' || 'A' <= c <= 'F'
  }

  function HexDigitValue(c: char): nat
    requires IsHexDigit(c)
  {
    if IsDigit(c) then DigitValue(c)
    else if 'a' <= c <= 'f' then (c as int) - ('a' as int) + 10
    else (c as int) - ('A' as int) + 10
  }

  /** A base-10 digit string read as a number. */
  function DecimalValue(d: string): nat
    requires AllDigits(d)
  {
    if d == [] then 0 else DecimalValue(d[..|d| - 1]) * 10 + DigitValue(d[|d| - 1])
  }

  /** A base-16 digit string read as a number. */
  function HexValue(d: string): nat
    requires forall k | 0 <= k < |d| :: IsHexDigit(d[k])
  {
    if d == [] then 0 else HexValue(d[..|d| - 1]) * 16 + HexDigitValue(d[|d| - 1])
  }

  /** The digits after the sign: base 16 after "0x" or "0X", else base 10; None when there are none. */
  function ParseUnsigned(body: string): Option<nat> {
    if |body| >= 2 && body[0] == '0' && (body[1] == 'x' || body[1] == 'X') then
      var d := LeadingHexDigits(body[2..]);
      if d == [] then None else Some(HexValue(d))
    else
      var d := LeadingDigits(body);
      if d == [] then None else Some(DecimalValue(d))
  }

  /**
   * JavaScript's `parseInt(s)` with the radix left out: leading whitespace
   * and one sign are skipped, a "0x"/"0X" prefix switches to base 16, and the
   * longest run of digits is read; no digit at all gives NaN (None).
   */
  function ParseInt(s: string): Option<int> {
    var t := TrimStart(s);
    if |t| > 0 && t[0] == '-' then
      var n := ParseUnsigned(t[1..]);
      if n.None? then None else Some(0 - n.value as int)
    else if |t| > 0 && t[0] == '+' then
      var n := ParseUnsigned(t[1..]);
      if n.None? then None else Some(n.value)
    else
      var n := ParseUnsigned(t);
      if n.None? then None else Some(n.value)
  }

  /** A string made only of decimal digits reads as its decimal value. */
  lemma {:induction false} ParseIntDigits(s: string)
    requires s != [] && AllDigits(s)
    ensures ParseInt(s) == Some(DecimalValue(s))
  {
    assert !IsWhitespace(s[0]) && TrimStart(s) == s;
    LeadingDigitsAll(s);
  }

  lemma {:induction false} LeadingDigitsAll(s: string)
    requires AllDigits(s)
    ensures LeadingDigits(s) == s
  {
    if s != [] {
      LeadingDigitsAll(s[1..]);
      assert s == [s[0]] + s[1..];
    }
  }

  /** Text after the digits is ignored. */
  lemma ParseIntTrailingText()
    ensures ParseInt("12abc") == Some(12)
  {
    var s := "12abc";
    assert !IsWhitespace(s[0]);
    assert TrimStart(s) == s;
    assert s[1..] == "2abc" && s[2..] == "abc";
    assert LeadingDigits("abc") == [];
    assert LeadingDigits("2abc") == "2";
    assert LeadingDigits(s) == "12";
    assert "12"[..1] == "1" && "1"[..0] == "";
    assert DecimalValue("12") == 12;
    assert ParseUnsigned(s) == Some(12);
  }

  /** Text without a leading digit, the empty string included, is NaN. */
  lemma ParseIntNaN()
    ensures ParseInt("abc") == None
    ensures ParseInt("") == None
  {
    assert !IsWhitespace('a');
    assert TrimStart("abc") == "abc";
    assert LeadingDigits("abc") == [];
    assert ParseUnsigned("abc") == None;
  }

  /** `parseInt(x) || d` on a request parameter that may be missing. */
  function NumberParam(p: Option<string>, default: int): int {
    var n := if p.None? then None else ParseInt(p.value);
    if n.None? || n.value == 0 then default else n.value
  }

  /** The query `list` hands to the service. */
  function ListQueryOf(page: Option<string>, pageSize: Option<string>, keyword: Option<string>,
                       attendanceType: Option<string>, startDate: Option<int>, endDate: Option<int>): ListQuery {
    ListQuery(Some(NumberParam(page, 1)), Some(NumberParam(pageSize, 10)), keyword, attendanceType, startDate, endDate)
  }

  /** `parseInt(p) || d`: the default for a missing, non-numeric or zero parameter, else the number read. */
  lemma NumberParamMeaning(p: Option<string>, default: int)
    ensures p.None? || ParseInt(p.value).None? || ParseInt(p.value) == Some(0) ==> NumberParam(p, default) == default
    ensures p.Some? && ParseInt(p.value).Some? && ParseInt(p.value) != Some(0) ==>
      NumberParam(p, default) == ParseInt(p.value).value
    ensures default != 0 ==> NumberParam(p, default) != 0
  {
  }

  /** A missing, non-numeric or zero page falls back to 1, a page size to 10. */
  lemma ListDefaults(page: Option<string>, pageSize: Option<string>, keyword: Option<string>,
                     attendanceType: Option<string>, startDate: Option<int>, endDate: Option<int>)
    ensures var q := ListQueryOf(page, pageSize, keyword, attendanceType, startDate, endDate);
      && (page.None? || ParseInt(page.value).None? || ParseInt(page.value) == Some(0) ==> q.page == Some(1))
      && (pageSize.None? || ParseInt(pageSize.value).None? || ParseInt(pageSize.value) == Some(0) ==> q.pageSize == Some(10))
      && (page.Some? && page.value != [] && AllDigits(page.value) && DecimalValue(page.value) != 0 ==>
            q.page == Some(DecimalValue(page.value)))
      && EffectivePage(q) != 0 && EffectivePageSize(q) != 0
  {
    NumberParamMeaning(page, 1);
    NumberParamMeaning(pageSize, 10);
    if page.Some? && page.value != [] && AllDigits(page.value) {
      ParseIntDigits(page.value);
    }
  }

  // ---------------------------------------------------------------------
  // The handlers

  /** `errorHandler`: a thrown error goes out with code 500 and its message. */
  function Thrown<T>(message: string): (r: Reply<T>)
    ensures r.status == 500 && r.body.code == 500 && r.body.data.None?
    ensures message == "" ==> r.body.message == MsgInternal
    ensures message != "" ==> r.body.message == message
  {
    Error(Some(if message == "" then MsgInternal else message), Some(500))
  }

  /** `RegistrationController` over the one service instance it is given. */
  class RegistrationController {
    const service: RegistrationService

    ghost predicate Valid()
      reads this, service
    {
      service.Valid()
    }

    constructor (service: RegistrationService)
      requires service.Valid()
      ensures Valid() && this.service == service
    {
      this.service := service;
    }

    /** `create`: the guard chain, then exactly one insert. */
    method Create(input: RegistrationInput, now: int) returns (reply: Reply<Registration>)
      requires Valid()
      modifies service
      ensures Valid()
      ensures var e := AdmissionError(input, old(service.rows));
        && (e.Some? ==>
              && reply == Error(e, None)
              && service.rows == old(service.rows) && service.nextId == old(service.nextId))
        && (e.None? ==>
              var row := NewRow(old(service.nextId), input, now);
              && service.rows == old(service.rows) + [row]
              && service.nextId == old(service.nextId) + 1
              && reply == Success(Some(row), Some(MsgCreated)))
    {
      var f := input.fields;
      if f.name == "" || f.idCard == "" || f.phone == "" || f.email == "" {
        return Error(Some(MsgRequired), None);
      }
      if !ValidateIdCard(f.idCard) {
        return Error(Some(MsgIdCardFormat), None);
      }
      if !ValidatePhone(f.phone) {
        return Error(Some(MsgPhoneFormat), None);
      }
      if !ValidateEmail(f.email) {
        return Error(Some(MsgEmailFormat), None);
      }
      if !(f.attendanceType in ["option1", "option2", "option3"]) {
        return Error(Some(MsgAttendanceType), None);
      }
      var taken := service.CheckIdCardExists(f.idCard);
      if taken {
        return Error(Some(MsgDuplicate), None);
      }
      var row := service.Create(input, now);
      reply := Success(Some(row), Some(MsgCreated));
    }

    /** `list`: the query with its defaults, then the service's page. */
    method List(page: Option<string>, pageSize: Option<string>, keyword: Option<string>,
                attendanceType: Option<string>, startDate: Option<int>, endDate: Option<int>)
      returns (reply: Reply<PageResult>)
      ensures var r := ListResult(service.rows, ListQueryOf(page, pageSize, keyword, attendanceType, startDate, endDate));
        && (r.Ok? ==> reply == Success(Some(r.value), None))
        && (r.Err? ==> reply == Thrown(r.error))
    {
      var query := ListQueryOf(page, pageSize, keyword, attendanceType, startDate, endDate);
      var result := service.FindAll(query);
      match result
      case Ok(v) => reply := Success(Some(v), None);
      case Err(msg) => reply := Thrown(msg);
    }

    /** `detail`: the row, or a not-found envelope with code 404. */
    method Detail(idParam: string) returns (reply: Reply<Registration>)
      ensures ParseInt(idParam).None? ==> reply == Thrown(MsgBadId)
      ensures ParseInt(idParam).Some? ==>
        var found := Lookup(service.rows, ParseInt(idParam).value);
        && (found.None? ==> reply == Error(Some(MsgNotFound), Some(404)))
        && (found.Some? ==> reply == Success(found, None))
    {
      var id := ParseInt(idParam);
      if id.None? {
        return Thrown(MsgBadId);
      }
      var registration := service.FindById(id.value);
      if registration.None? {
        return Error(Some(MsgNotFound), Some(404));
      }
      reply := Success(registration, None);
    }

    /** `update`: the patched row, or the store's error for an absent id. */
    method Update(idParam: string, p: Patch, now: int) returns (reply: Reply<Registration>)
      requires Valid()
      modifies service
      ensures Valid()
      ensures service.nextId == old(service.nextId)
      ensures ParseInt(idParam).None? ==> reply == Thrown(MsgBadId) && service.rows == old(service.rows)
      ensures ParseInt(idParam).Some? ==>
        var id := ParseInt(idParam).value;
        var found := Lookup(old(service.rows), id);
        && (found.None? ==> reply.status == 500 && service.rows == old(service.rows))
        && (found.Some? ==>
              && service.rows == UpdateId(old(service.rows), id, p, now)
              && reply == Success(Some(ApplyPatch(found.value, p, now)), Some(MsgUpdated)))
    {
      var id := ParseInt(idParam);
      if id.None? {
        return Thrown(MsgBadId);
      }
      var result := service.Update(id.value, p, now);
      match result
      case Ok(row) => reply := Success(Some(row), Some(MsgUpdated));
      case Err(msg) => reply := Thrown(msg);
    }

    /** `delete`: `data: null` on success, the store's error for an absent id. */
    method Delete(idParam: string) returns (reply: Reply<Null>)
      requires Valid()
      modifies service
      ensures Valid()
      ensures service.nextId == old(service.nextId)
      ensures ParseInt(idParam).None? ==> reply == Thrown(MsgBadId) && service.rows == old(service.rows)
      ensures ParseInt(idParam).Some? ==>
        var id := ParseInt(idParam).value;
        && (Lookup(old(service.rows), id).None? ==> reply.status == 500 && service.rows == old(service.rows))
        && (Lookup(old(service.rows), id).Some? ==>
              && service.rows == RemoveId(old(service.rows), id)
              && reply == Success(Some(Null), Some(MsgDeleted)))
    {
      var id := ParseInt(idParam);
      if id.None? {
        return Thrown(MsgBadId);
      }
      var result := service.Delete(id.value);
      match result
      case Ok(_) => reply := Success(Some(Null), Some(MsgDeleted));
      case Err(msg) => reply := Thrown(msg);
    }

    /** `statistics`: the aggregate figures at time `now`. */
    method Statistics(now: int) returns (reply: Reply<Statistics>)
      ensures reply == Success(Some(StatisticsOf(service.rows, now)), None)
    {
      var stats := service.GetStatistics(now);
      reply := Success(Some(stats), None);
    }
  }

  /** Deleting the same id twice never succeeds twice. */
  method DeleteTwice(c: RegistrationController, idParam: string) returns (first: Reply<Null>, second: Reply<Null>)
    requires c.Valid()
    modifies c.service
    ensures c.Valid()
    ensures second.status == 500
  {
    first := c.Delete(idParam);
    if ParseInt(idParam).Some? {
      DeleteForgets(old(c.service.rows), ParseInt(idParam).value, "");
    }
    second := c.Delete(idParam);
  }
}
