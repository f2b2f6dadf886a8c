/** The `send-customer-to-crm` edge function up to the outbound request:
    the checks that turn a request into a 400 or 500 response, the choice
    of the CRM business id, and the payload built from the customer data. */
module Crm {
  import opened Seqs
  import opened Text

  /** Business id used when the request neither names nor maps to one. */
  const DefaultBusinessId := "9c38d437-b6c9-425a-9199-d514007fcb63"

  /** Restaurant id to CRM business id. */
  const RestaurantToBusiness: map<string, string> :=
    map["24e2799f-60d5-4e3b-bb30-b8049c9ae56d" := "9c38d437-b6c9-425a-9199-d514007fcb63"]

  /** The fields of the request body the function reads. An absent or
      empty string is `""` (both are falsy); `isNewCustomer` is whether the
      field is literally `true`; the two totals are `None` unless numbers. */
  datatype CustomerData = CustomerData(
    customerName: string,
    customerEmail: string,
    customerPhone: string,
    restaurantId: string,
    bookingDate: string,
    businessId: string,
    isNewCustomer: bool,
    totalBookings: Option<int>,
    totalSpent: Option<int>)

  /** What `JSON.parse` made of the body: an object, `null`, or any other
      value (a number, string, boolean or array, on which every field reads
      as `undefined`). */
  datatype Json = Object(data: CustomerData) | Null | Scalar

  datatype Rejection =
    | InvalidJson                          // "Invalid JSON in request body"
    | NameOrEmailMissing                   // "customerName or customerEmail is required"
    | MissingFields(fields: seq<string>)   // "Missing required fields: ..."
    | ApiKeyMissing                        // "CRM API key not configured"

  /** HTTP status of each rejection. */
  function StatusOf(r: Rejection): (status: int)
    ensures status == 500 <==> r == ApiKeyMissing
    ensures status == 400 <==> r != ApiKeyMissing
  {
    if r == ApiKeyMissing then 500 else 400
  }

  /** The record sent to the CRM. `None` is JSON `null`. */
  datatype Payload = Payload(
    name: string,
    email: string,
    phone: string,
    businessId: string,
    firstName: Option<string>,
    lastName: Option<string>,
    totalBookings: int,
    totalSpent: int,
    lastBookingDate: Option<string>)

  datatype Outcome = Rejected(reason: Rejection) | Send(payload: Payload)

  // ---------------------------------------------------------------------
  // Required fields

  /** Field names that must be non-empty, in the order they are reported. */
  function RequiredFields(isNewCustomer: bool): seq<string>
  {
    if isNewCustomer then ["customerName", "customerEmail"]
    else ["customerName", "customerEmail", "restaurantId"]
  }

  function FieldValue(d: CustomerData, field: string): string
  {
    match field
    case "customerName" => d.customerName
    case "customerEmail" => d.customerEmail
    case "restaurantId" => d.restaurantId
    case _ => ""
  }

  /** `requiredFields.filter(field => !customerData[field])`. */
  function MissingFieldsOf(d: CustomerData): seq<string>
  {
    Filter(RequiredFields(d.isNewCustomer), (f: string) => FieldValue(d, f) == "")
  }

  /** Nothing is missing iff name and email are present and, for a booking
      (not a new customer), so is the restaurant id; the missing names are
      listed in required-field order. */
  lemma MissingFieldsSpec(d: CustomerData)
    ensures MissingFieldsOf(d) == [] <==>
      d.customerName != "" && d.customerEmail != "" && (d.isNewCustomer || d.restaurantId != "")
    ensures ("restaurantId" in MissingFieldsOf(d)) <==> !d.isNewCustomer && d.restaurantId == ""
    ensures IsSubsequence(MissingFieldsOf(d), RequiredFields(d.isNewCustomer))
  {
    var req := RequiredFields(d.isNewCustomer);
    assert req[0] == "customerName" && req[1] == "customerEmail";
    assert "customerName" in req && "customerEmail" in req;
    assert FieldValue(d, "customerName") == d.customerName;
    assert FieldValue(d, "customerEmail") == d.customerEmail;
    assert FieldValue(d, "restaurantId") == d.restaurantId;
    if !d.isNewCustomer {
      assert req[2] == "restaurantId";
      assert "restaurantId" in req;
    }
    var missing := (f: string) => FieldValue(d, f) == "";
    assert MissingFieldsOf(d) == Filter(req, missing);
    if d.customerName != "" && d.customerEmail != "" && (d.isNewCustomer || d.restaurantId != "") {
      FilterNone(req, missing);
    }
    FilterIsSubsequence(req, missing);
  }

  /** The checks before any payload is built, in the order they run. */
  function Validate(parsed: Option<Json>, apiKey: string): Result<CustomerData, Rejection>
  {
    match parsed
    case None => Err(InvalidJson)
    // Reading a field of `null` throws; the parse handler catches it.
    case Some(Null) => Err(InvalidJson)
    case Some(Scalar) => Err(NameOrEmailMissing)
    case Some(Object(d)) =>
      if d.customerName == "" && d.customerEmail == "" then Err(NameOrEmailMissing)
      else if MissingFieldsOf(d) != [] then Err(MissingFields(MissingFieldsOf(d)))
      else if apiKey == "" then Err(ApiKeyMissing)
      else Ok(d)
  }

  /** A request gets through the checks iff its body is a JSON object
      holding every required field and the API key is configured. */
  lemma ValidateSpec(parsed: Option<Json>, apiKey: string)
    ensures Validate(parsed, apiKey).Ok? <==>
      parsed.Some? && parsed.value.Object? && MissingFieldsOf(parsed.value.data) == [] && apiKey != ""
    ensures Validate(parsed, apiKey).Ok? ==> Validate(parsed, apiKey).value == parsed.value.data
    ensures Validate(parsed, apiKey).Err? && Validate(parsed, apiKey).error.MissingFields? ==>
      Validate(parsed, apiKey).error.fields != []
  {
    if parsed.Some? && parsed.value.Object? {
      var d := parsed.value.data;
      MissingFieldsSpec(d);
    }
  }

  // ---------------------------------------------------------------------
  // Business id and name split

  /** The `crmBusinessId` if/else chain. */
  method ResolveBusinessId(d: CustomerData) returns (crmBusinessId: string)
    ensures crmBusinessId != ""
    ensures d.businessId != "" ==> crmBusinessId == d.businessId
    ensures d.businessId == "" && d.restaurantId in RestaurantToBusiness ==>
      crmBusinessId == RestaurantToBusiness[d.restaurantId]
    ensures d.businessId == "" && d.restaurantId !in RestaurantToBusiness ==> crmBusinessId == DefaultBusinessId
  {
    crmBusinessId := "";
    if d.businessId != "" {
      crmBusinessId := d.businessId;
    } else if d.restaurantId != "" && d.restaurantId in RestaurantToBusiness
              && RestaurantToBusiness[d.restaurantId] != "" {
      crmBusinessId := RestaurantToBusiness[d.restaurantId];
    } else {
      crmBusinessId := DefaultBusinessId;
    }
  }

  /** First name and the remaining words of the trimmed name. */
  method SplitName(customerName: string) returns (firstName: string, lastName: string)
    ensures customerName == "" ==> firstName == "" && lastName == ""
    ensures ' ' !in firstName
    ensures ' ' in Trim(customerName) ==> firstName + " " + lastName == Trim(customerName)
    ensures ' ' in Trim(customerName) ==> firstName != "" && lastName != ""
    ensures ' ' !in Trim(customerName) ==> firstName == Trim(customerName) && lastName == ""
  {
    firstName := "";
    lastName := "";
    if customerName != "" {
      var fullName := Trim(customerName);
      var nameParts := Split(fullName, ' ');
      HeadAndRest(fullName, ' ');
      firstName := nameParts[0];
      lastName := Join(nameParts[1..], ' ');
      if ' ' in fullName {
        assert fullName[0] != ' ';
        assert fullName[|fullName| - 1] != ' ';
      }
    } else {
      assert Trim(customerName) == [];
    }
  }

  /** `customerName || `${firstName} ${lastName}`.trim()`. */
  function DisplayName(customerName: string, firstName: string, lastName: string): (name: string)
    ensures customerName != "" ==> name == customerName
  {
    if customerName != "" then customerName else Trim(firstName + " " + lastName)
  }

  /** `crmPayload` and the `business_id` fix-up after it. */
  method BuildPayload(d: CustomerData, crmBusinessId: string) returns (payload: Payload)
    ensures d.customerName != "" ==> payload.name == d.customerName
    ensures payload.email == d.customerEmail && payload.phone == d.customerPhone
    ensures payload.businessId != ""
    ensures crmBusinessId != "" ==> payload.businessId == crmBusinessId
    ensures payload.firstName.Some? ==> payload.firstName.value != "" && ' ' !in payload.firstName.value
    ensures ' ' in Trim(d.customerName) ==>
      payload.firstName.Some? && payload.lastName.Some?
      && payload.firstName.value + " " + payload.lastName.value == Trim(d.customerName)
    ensures ' ' !in Trim(d.customerName) ==>
      payload.firstName == OrNone(Trim(d.customerName)) && payload.lastName.None?
    ensures payload.totalBookings == (if d.totalBookings.Some? then d.totalBookings.value else 0)
    ensures payload.totalSpent == (if d.totalSpent.Some? then d.totalSpent.value else 0)
    ensures payload.lastBookingDate == OrNone(d.bookingDate)
  {
    var firstName, lastName := SplitName(d.customerName);
    var name := DisplayName(d.customerName, firstName, lastName);
    payload := Payload(
      name,
      d.customerEmail,
      d.customerPhone,
      if crmBusinessId != "" then crmBusinessId else DefaultBusinessId,
      OrNone(firstName),
      OrNone(lastName),
      if d.totalBookings.Some? then d.totalBookings.value else 0,
      if d.totalSpent.Some? then d.totalSpent.value else 0,
      OrNone(d.bookingDate));
    if payload.businessId == "" {
      payload := payload.(businessId := DefaultBusinessId);
    }
  }

  /** The whole request, from the body text and what `JSON.parse` made of
      it (`None` when it throws) to a rejection or the payload to send. An
      empty or blank body never parses, so it is answered with 400. */
  method HandleRequest(rawBody: string, parsed: Option<Json>, apiKey: string) returns (outcome: Outcome)
    requires IsBlank(rawBody) ==> parsed.None?
    ensures IsBlank(rawBody) ==> outcome == Rejected(InvalidJson)
    ensures outcome.Rejected? <==> Validate(parsed, apiKey).Err?
    ensures outcome.Rejected? ==> outcome.reason == Validate(parsed, apiKey).error
    ensures outcome.Send? ==>
      var d := parsed.value.data;
      parsed.value.Object? && outcome.payload.name == d.customerName && outcome.payload.email == d.customerEmail
      && outcome.payload.businessId != ""
      && (d.businessId != "" ==> outcome.payload.businessId == d.businessId)
      && (d.businessId == "" && d.restaurantId in RestaurantToBusiness ==>
            outcome.payload.businessId == RestaurantToBusiness[d.restaurantId])
      && (d.businessId == "" && d.restaurantId !in RestaurantToBusiness ==>
            outcome.payload.businessId == DefaultBusinessId)
  {
    match Validate(parsed, apiKey)
    case Err(reason) =>
      outcome := Rejected(reason);
    case Ok(d) =>
      ValidateSpec(parsed, apiKey);
      MissingFieldsSpec(d);
      var crmBusinessId := ResolveBusinessId(d);
      var payload := BuildPayload(d, crmBusinessId);
      outcome := Send(payload);
  }
}
