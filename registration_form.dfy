/**
 * The logic of the public registration form: the fee table and the running
 * fee, the companion list the form edits, the checks made before a
 * submission, the payload it sends, and the form's own ID-card rule.
 */
module RegistrationForm {
  import opened Wrappers
  import opened Validator
  import opened RegistrationTypes

  /** A companion as the form edits it; `permitImages` are the uploader's entries. */
  datatype FormCompanion = FormCompanion(name: string, idCard: string, bedType: string, permitImages: seq<Image>)

  // ---------------------------------------------------------------------
  // Fees

  /** The registrant's own fee; an unknown option (the empty one included) costs nothing. */
  function BaseFee(attendanceType: string): nat {
    if attendanceType == "option1" then 1000
    else if attendanceType == "option2" then 1800
    else if attendanceType == "option3" then 2000
    else 0
  }

  /** What one companion adds, by option and bed type ('share' or anything else). */
  function Surcharge(attendanceType: string, bedType: string): nat {
    if attendanceType == "option1" then 0
    else if attendanceType == "option2" then (if bedType == "share" then 1600 else 1800)
    else if attendanceType == "option3" then (if bedType == "share" then 1800 else 2000)
    else 0
  }

  /** The surcharges of a companion list, added up from the first companion on. */
  function SurchargeTotal(attendanceType: string, cs: seq<FormCompanion>): nat {
    if cs == [] then 0
    else SurchargeTotal(attendanceType, cs[..|cs| - 1]) + Surcharge(attendanceType, cs[|cs| - 1].bedType)
  }

  /** The fee the form shows and submits. */
  function Fee(attendanceType: string, hasPlusOnes: bool, cs: seq<FormCompanion>): nat {
    BaseFee(attendanceType) + (if hasPlusOnes && |cs| > 0 then SurchargeTotal(attendanceType, cs) else 0)
  }

  /** The fee-calculation effect: the base fee, then one surcharge per companion. */
  method CalculateFee(attendanceType: string, hasPlusOnes: bool, cs: seq<FormCompanion>) returns (fee: int)
    ensures fee == Fee(attendanceType, hasPlusOnes, cs)
  {
    fee := 0;
    if attendanceType == "option1" {
      fee := 1000;
    } else if attendanceType == "option2" {
      fee := 1800;
    } else if attendanceType == "option3" {
      fee := 2000;
    }
    if hasPlusOnes && |cs| > 0 {
      for i := 0 to |cs|
        invariant fee == BaseFee(attendanceType) + SurchargeTotal(attendanceType, cs[..i])
      {
        assert cs[..i + 1][..i] == cs[..i];
        if attendanceType == "option1" {
          fee := fee + 0;
        } else if attendanceType == "option2" {
          fee := fee + if cs[i].bedType == "share" then 1600 else 1800;
        } else if attendanceType == "option3" {
          fee := fee + if cs[i].bedType == "share" then 1800 else 2000;
        }
      }
      assert cs[..|cs|] == cs;
    }
  }

  /** How many companions share a bed. */
  function Sharing(cs: seq<FormCompanion>): (n: nat)
    ensures n <= |cs|
  {
    if cs == [] then 0 else Sharing(cs[..|cs| - 1]) + (if cs[|cs| - 1].bedType == "share" then 1 else 0)
  }

  /** The price table: per-companion rates for a shared and for an own bed. */
  function ShareRate(attendanceType: string): nat {
    if attendanceType == "option2" then 1600 else if attendanceType == "option3" then 1800 else 0
  }

  function SingleRate(attendanceType: string): nat {
    if attendanceType == "option2" then 1800 else if attendanceType == "option3" then 2000 else 0
  }

  /** The surcharges sum to the table's rate times the number of companions of each bed type. */
  lemma {:induction false} SurchargeByTable(attendanceType: string, cs: seq<FormCompanion>)
    ensures SurchargeTotal(attendanceType, cs)
         == Sharing(cs) * ShareRate(attendanceType) + (|cs| - Sharing(cs)) * SingleRate(attendanceType)
  {
    if cs != [] {
      SurchargeByTable(attendanceType, cs[..|cs| - 1]);
    }
  }

  /** Without companions, or with them switched off, the fee is the base fee; option 1 and unknown options never charge for companions. */
  lemma FeeOfBaseOnly(attendanceType: string, hasPlusOnes: bool, cs: seq<FormCompanion>)
    ensures !hasPlusOnes || cs == [] ==> Fee(attendanceType, hasPlusOnes, cs) == BaseFee(attendanceType)
    ensures ShareRate(attendanceType) == 0 ==> Fee(attendanceType, hasPlusOnes, cs) == BaseFee(attendanceType)
    ensures BaseFee(attendanceType) <= Fee(attendanceType, hasPlusOnes, cs) <= BaseFee(attendanceType) + 2000 * |cs|
  {
    SurchargeByTable(attendanceType, cs);
    var n, s := |cs|, Sharing(cs);
    assert s * ShareRate(attendanceType) + (n - s) * SingleRate(attendanceType) <= s * 2000 + (n - s) * 2000;
  }

  /** The fee table at work. */
  lemma FeeExamples()
    ensures Fee("option1", false, []) == 1000
    ensures Fee("option2", true, [FormCompanion("", "", "share", [])]) == 3400
    ensures Fee("option3", true, [FormCompanion("", "", "single", []), FormCompanion("", "", "share", [])]) == 5800
    ensures Fee("option1", true, [FormCompanion("", "", "single", [])]) == 1000
    ensures Fee("", true, [FormCompanion("", "", "single", [])]) == 0
  {
    var single, share := FormCompanion("", "", "single", []), FormCompanion("", "", "share", []);
    var two := [single, share];
    assert two[..1] == [single];
    assert [single][..0] == [];
    assert [share][..0] == [];
    assert SurchargeTotal("option3", [single]) == 2000;
    assert SurchargeTotal("option3", two) == 3800;
  }

  // ---------------------------------------------------------------------
  // The companion list

  /** What a new companion entry holds. */
  const BlankCompanion: FormCompanion := FormCompanion("", "", "share", [])

  /** `handlePlusOnesCountChange(count)`: a fresh list of `count` blank entries. */
  method BlankCompanions(count: int) returns (cs: seq<FormCompanion>)
    ensures |cs| == if count > 0 then count else 0
    ensures forall k | 0 <= k < |cs| :: cs[k] == BlankCompanion
  {
    cs := [];
    var i := 0;
    while i < count
      invariant 0 <= i <= if count > 0 then count else 0
      invariant |cs| == i
      invariant forall k | 0 <= k < |cs| :: cs[k] == BlankCompanion
    {
      cs := cs + [FormCompanion("", "", "share", [])];
      i := i + 1;
    }
  }

  /**
   * `handlePlusOnesCountChange(count)` on the form state: the count is set,
   * the companions become `count` blank entries, and nothing else changes.
   */
  method PlusOnesCountChange(st: FormState, count: int) returns (r: FormState)
    ensures r.plusOnesCount == count
    ensures |r.companions| == (if count > 0 then count else 0)
    ensures forall k | 0 <= k < |r.companions| :: r.companions[k] == BlankCompanion
    ensures r.(plusOnesCount := st.plusOnesCount, companions := st.companions) == st
    ensures count >= 0 ==> CountMatchesList(r)
  {
    var cs := BlankCompanions(count);
    r := st.(plusOnesCount := count, companions := cs);
  }

  /** The field `updateCompanion` writes, with the value written. */
  datatype CompanionEdit =
    | SetName(name: string)
    | SetIdCard(idCard: string)
    | SetBedType(bedType: string)
    | SetPermitImages(images: seq<Image>)

  /** `{...c, [field]: value}` */
  function Edited(c: FormCompanion, e: CompanionEdit): FormCompanion {
    match e
    case SetName(v) => c.(name := v)
    case SetIdCard(v) => c.(idCard := v)
    case SetBedType(v) => c.(bedType := v)
    case SetPermitImages(v) => c.(permitImages := v)
  }

  /** The one field that an edit names takes its new value; the other three stay. */
  lemma EditedOnlyThatField(c: FormCompanion, e: CompanionEdit)
    ensures var r := Edited(c, e);
      && (if e.SetName? then r.name == e.name else r.name == c.name)
      && (if e.SetIdCard? then r.idCard == e.idCard else r.idCard == c.idCard)
      && (if e.SetBedType? then r.bedType == e.bedType else r.bedType == c.bedType)
      && (if e.SetPermitImages? then r.permitImages == e.images else r.permitImages == c.permitImages)
  {
  }

  /** `updateCompanion(index, field, value)` on a rendered entry. */
  function UpdateCompanion(cs: seq<FormCompanion>, index: nat, e: CompanionEdit): (r: seq<FormCompanion>)
    requires index < |cs|
    ensures |r| == |cs|
    ensures forall k | 0 <= k < |cs| && k != index :: r[k] == cs[k]
    ensures r[index] == Edited(cs[index], e)
  {
    cs[index := Edited(cs[index], e)]
  }

  // ---------------------------------------------------------------------
  // Submission

  /** The values the form's fields hold when it is submitted. */
  datatype FormValues = FormValues(
    name: string,
    idCard: string,
    gender: string,
    position: string,
    attendanceType: string,
    phone: string,
    email: string,
    wechat: Option<string>,
    city: string)

  /** The component state that `onFinish` reads; `totalFee` is what the fee effect last set. */
  datatype FormState = FormState(
    attendanceType: string,
    hasPlusOnes: bool,
    plusOnesCount: int,
    companions: seq<FormCompanion>,
    permitImages: seq<Image>,
    paymentImages: seq<Image>,
    confirmed: bool,
    totalFee: int)

  /** The state the form mounts with: nothing chosen, no companions, no images, fee 0. */
  const InitialForm: FormState := FormState("", false, 0, [], [], [], false, 0)

  /** The count the form shows agrees with the number of companion entries. */
  predicate CountMatchesList(st: FormState) {
    st.plusOnesCount == |st.companions|
  }

  /**
   * The count and the list agree when the form mounts, and while they agree
   * with companions on, the count sent is the number of companions sent.
   */
  lemma CountMatchesSent(v: FormValues, st: FormState)
    ensures CountMatchesList(InitialForm)
    ensures CountMatchesList(st) && st.hasPlusOnes ==>
      Payload(v, st).fields.plusOnesCount == |Payload(v, st).companions.value|
  {
  }

  /** Why `onFinish` stops before submitting; `position` counts companions from 1. */
  datatype AbortReason = PaymentMissing | CompanionIncomplete(position: nat) | NoticeNotConfirmed

  datatype Submission = Aborted(reason: AbortReason) | Submitted(payload: RegistrationInput)

  predicate Incomplete(c: FormCompanion) {
    c.name == "" || c.idCard == ""
  }

  /** The index of the first companion without a name or an ID card. */
  function FirstIncomplete(cs: seq<FormCompanion>): (r: Option<nat>)
    ensures r.Some? ==> r.value < |cs| && Incomplete(cs[r.value])
    ensures r.Some? ==> forall k | 0 <= k < r.value :: !Incomplete(cs[k])
    ensures r.None? ==> forall k | 0 <= k < |cs| :: !Incomplete(cs[k])
  {
    if cs == [] then None
    else if Incomplete(cs[0]) then Some(0)
    else
      var rest := FirstIncomplete(cs[1..]);
      if rest.None? then None else Some(rest.value + 1)
  }

  /** `images[0]?.url || ''` */
  function FirstUrl(images: seq<Image>): string {
    if |images| > 0 then images[0].url else ""
  }

  /** A companion as submitted: its first permit image becomes `permitImageUrl`. */
  function AsSubmitted(c: FormCompanion): Companion {
    Companion(c.name, c.idCard, c.bedType, FirstUrl(c.permitImages))
  }

  function SubmittedAll(cs: seq<FormCompanion>): (r: seq<Companion>)
    ensures |r| == |cs| && forall k | 0 <= k < |cs| :: r[k] == AsSubmitted(cs[k])
  {
    seq(|cs|, k requires 0 <= k < |cs| => AsSubmitted(cs[k]))
  }

  /** The request body the form sends. */
  function Payload(v: FormValues, st: FormState): (p: RegistrationInput)
    ensures p.companions.Some?
    ensures !st.hasPlusOnes ==> p.companions.value == []
    ensures st.hasPlusOnes ==> |p.companions.value| == |st.companions|
    ensures st.hasPlusOnes ==> forall k | 0 <= k < |st.companions| ::
      p.companions.value[k].name == st.companions[k].name
      && p.companions.value[k].idCard == st.companions[k].idCard
      && p.companions.value[k].bedType == st.companions[k].bedType
      && p.companions.value[k].permitImageUrl
         == (if st.companions[k].permitImages == [] then "" else st.companions[k].permitImages[0].url)
    ensures p.fields.paymentImageUrl == if st.paymentImages == [] then "" else st.paymentImages[0].url
    ensures p.fields.totalFee == st.totalFee
    ensures p.fields.hasPlusOnes == st.hasPlusOnes && p.fields.plusOnesCount == st.plusOnesCount
  {
    RegistrationInput(
      Fields(v.name, v.idCard, v.gender, st.hasPlusOnes, st.plusOnesCount, v.attendanceType,
             v.phone, v.email, v.wechat, v.city, v.position,
             FirstUrl(st.permitImages), FirstUrl(st.paymentImages), st.totalFee),
      Some(if st.hasPlusOnes then SubmittedAll(st.companions) else []))
  }

  /** The fee state is current when it holds what the fee effect computes from the form. */
  predicate FeeCurrent(st: FormState) {
    st.totalFee == Fee(st.attendanceType, st.hasPlusOnes, st.companions)
  }

  /**
   * With the fee state current, the submitted fee is the table's price:
   * the base fee when companions are off, and otherwise the base fee plus
   * each companion's rate for its bed type.
   */
  lemma SubmittedFeeFromTable(v: FormValues, st: FormState)
    requires FeeCurrent(st)
    ensures !st.hasPlusOnes ==> Payload(v, st).fields.totalFee == BaseFee(st.attendanceType)
    ensures st.hasPlusOnes ==>
      Payload(v, st).fields.totalFee
        == BaseFee(st.attendanceType) + Sharing(st.companions) * ShareRate(st.attendanceType)
           + (|st.companions| - Sharing(st.companions)) * SingleRate(st.attendanceType)
  {
    SurchargeByTable(st.attendanceType, st.companions);
  }

  /**
   * `onFinish`: stops at the first failed check (payment image, then each
   * companion in order when companions are on, then the notice), and
   * otherwise submits the payload.
   */
  method OnFinish(v: FormValues, st: FormState) returns (s: Submission)
    ensures st.paymentImages == [] ==> s == Aborted(PaymentMissing)
    ensures st.paymentImages != [] && st.hasPlusOnes && FirstIncomplete(st.companions).Some? ==>
      s == Aborted(CompanionIncomplete(FirstIncomplete(st.companions).value + 1))
    ensures st.paymentImages != [] && (!st.hasPlusOnes || FirstIncomplete(st.companions).None?) && !st.confirmed ==>
      s == Aborted(NoticeNotConfirmed)
    ensures s.Submitted? <==>
      st.paymentImages != [] && (!st.hasPlusOnes || FirstIncomplete(st.companions).None?) && st.confirmed
    ensures s.Submitted? ==> s.payload == Payload(v, st)
  {
    if |st.paymentImages| == 0 {
      return Aborted(PaymentMissing);
    }
    if st.hasPlusOnes {
      var i := 0;
      while i < |st.companions|
        invariant 0 <= i <= |st.companions|
        invariant forall k | 0 <= k < i :: !Incomplete(st.companions[k])
      {
        var c := st.companions[i];
        if c.name == "" || c.idCard == "" {
          return Aborted(CompanionIncomplete(i + 1));
        }
        i := i + 1;
      }
    }
    if !st.confirmed {
      return Aborted(NoticeNotConfirmed);
    }
    s := Submitted(Payload(v, st));
  }

  // ---------------------------------------------------------------------
  // The form's own field rules

  /** The ID-card field's pattern: 15 digits, 18 digits, or 17 digits and 'X'/'x'. */
  predicate FormIdCardRule(s: string) {
    (|s| == 15 && AllDigits(s))
    || (|s| == 18 && AllDigits(s))
    || (|s| == 18 && AllDigits(s[..17]) && (IsDigit(s[17]) || s[17] == 'X' || s[17] == 'x'))
  }

  /**
   * The form's ID-card rule is looser than the server's: whatever the server
   * accepts the form accepts, but the form lets through 15-digit numbers and
   * 18-digit ones that the server refuses. (The phone field uses the
   * server's own pattern, ValidatePhone.)
   */
  lemma FormIdCardLooser(s: string)
    ensures ValidateIdCard(s) ==> FormIdCardRule(s)
    ensures FormIdCardRule("110101900307123") && !ValidateIdCard("110101900307123")
    ensures FormIdCardRule("000000000000000000") && !ValidateIdCard("000000000000000000")
  {
    if ValidateIdCard(s) {
      ValidateIdCardByNumbers(s);
    }
    var zeros := "000000000000000000";
    assert AllDigits(zeros) by {
      forall k | 0 <= k < 18 ensures IsDigit(zeros[k]) { }
    }
  }
}
