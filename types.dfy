/**
 * The shapes the backend stores and exchanges. A registration's companions
 * are kept as a sequence; the JSON text the database column holds is an
 * encoding of it that reads back unchanged.
 */
module RegistrationTypes {
  import opened Wrappers

  /** An uploaded image, `{url: string}`, as both the upload component and the form's uploader hold it. */
  datatype Image = Image(url: string)

  /** One person who comes along with the registrant. */
  datatype Companion = Companion(name: string, idCard: string, bedType: string, permitImageUrl: string)

  /** The scalar columns of a registration, exactly as a client submits them. */
  datatype Fields = Fields(
    name: string,
    idCard: string,
    gender: string,
    hasPlusOnes: bool,
    plusOnesCount: int,
    attendanceType: string,
    phone: string,
    email: string,
    wechat: Option<string>,
    city: string,
    position: string,
    permitImageUrl: string,
    paymentImageUrl: string,
    totalFee: int)

  /** The body of a create request; `companions == None` when the key is absent or null. */
  datatype RegistrationInput = RegistrationInput(fields: Fields, companions: Option<seq<Companion>>)

  /**
   * A stored registration. The id and the two timestamps (milliseconds)
   * come from the store; `companions == None` where the column holds null.
   */
  datatype Registration = Registration(
    id: int, fields: Fields, companions: Option<seq<Companion>>, createdAt: int, updatedAt: int)

  /** The body of an update request: `None` leaves the column as it is. */
  datatype Patch = Patch(
    name: Option<string>,
    idCard: Option<string>,
    gender: Option<string>,
    hasPlusOnes: Option<bool>,
    plusOnesCount: Option<int>,
    attendanceType: Option<string>,
    phone: Option<string>,
    email: Option<string>,
    wechat: Option<string>,
    city: Option<string>,
    position: Option<string>,
    permitImageUrl: Option<string>,
    paymentImageUrl: Option<string>,
    totalFee: Option<int>,
    companions: Option<seq<Companion>>)

  /** The list query; dates are timestamps already parsed from their text. */
  datatype ListQuery = ListQuery(
    page: Option<int>,
    pageSize: Option<int>,
    keyword: Option<string>,
    attendanceType: Option<string>,
    startDate: Option<int>,
    endDate: Option<int>)

  /** One page of the list, with the paging figures echoed back. */
  datatype PageResult = PageResult(list: seq<Registration>, total: nat, page: int, pageSize: int, totalPages: int)

  /** The admin dashboard's aggregate figures. */
  datatype Statistics = Statistics(
    total: nat,
    option1Count: nat,
    option2Count: nat,
    option3Count: nat,
    totalPlusOnes: int,
    recentRegistrations: nat)
}
