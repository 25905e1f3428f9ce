/** backend/apps/fbr/client.py and error_mapping.py: what a gateway reply means. */
module Client {
  import opened Wrappers

  datatype Category = TRANSIENT | VALIDATION | BUSINESS | AUTH

  const ERROR_CODE_MAP: map<string, Category> := map[
    "0053" := VALIDATION, "0001" := VALIDATION, "0010" := VALIDATION, "0011" := VALIDATION, "0020" := VALIDATION,
    "0100" := BUSINESS, "0101" := BUSINESS, "0102" := BUSINESS,
    "0401" := AUTH, "0403" := AUTH,
    "0500" := TRANSIENT, "0503" := TRANSIENT
  ]

  /** An entry of validationResponse.invoiceStatuses. */
  datatype LineStatus = LineStatus(statusCode: Option<string>, errorCode: Option<string>)

  datatype Validation = Validation(statusCode: Option<string>, statuses: seq<LineStatus>)

  /** What the POST ends in. `Unparsable` is a body that stays malformed after the lenient
      pass. */
  datatype Reply =
    | Timeout | ConnectionError | Unparsable
    | Parsed(http: int, number: Option<string>, validation: Option<Validation>)

  datatype Answer = Accepted(number: Option<string>) | Raised(category: Category)

  /** Precedence: the code map, then the HTTP status, then VALIDATION. */
  function Categorize(code: Option<string>, http: int): Category {
    if code.Some? && code.value in ERROR_CODE_MAP then ERROR_CODE_MAP[code.value]
    else if http == 401 || http == 403 then AUTH
    else if 500 <= http < 600 then TRANSIENT
    else VALIDATION
  }

  predicate IsSuccess(r: Reply)
    requires r.Parsed?
  {
    r.http < 400 && r.validation.Some? && r.validation.value.statusCode == Some("00")
  }

  function FirstError(statuses: seq<LineStatus>): Option<string> {
    if statuses == [] then None
    else if statuses[0].statusCode != Some("00") then statuses[0].errorCode
    else FirstError(statuses[1..])
  }

  function FirstErrorCode(r: Reply): Option<string>
    requires r.Parsed?
  {
    if r.validation.None? then None else FirstError(r.validation.value.statuses)
  }

  /** FbrClient._post */
  function Classify(r: Reply): Answer {
    match r
    case Timeout => Raised(TRANSIENT)
    case ConnectionError => Raised(TRANSIENT)
    case Unparsable => Raised(TRANSIENT)
    case Parsed(http, number, _) =>
      if IsSuccess(r) then Accepted(number) else Raised(Categorize(FirstErrorCode(r), http))
  }

  predicate Retryable(r: Reply) {
    Classify(r) == Raised(TRANSIENT)
  }

  /** The first line status that is not "00" decides the code, even when it carries none. */
  lemma {:induction false} FirstErrorIsFirst(statuses: seq<LineStatus>, n: nat)
    requires n <= |statuses| && forall j :: 0 <= j < n ==> statuses[j].statusCode == Some("00")
    ensures n == |statuses| ==> FirstError(statuses) == None
    ensures n < |statuses| && statuses[n].statusCode != Some("00") ==> FirstError(statuses) == statuses[n].errorCode
  {
    if n != 0 {
      assert statuses[1..][n - 1..] == statuses[n..];
      FirstErrorIsFirst(statuses[1..], n - 1);
    }
  }

  /** A reply is accepted exactly when it was parsed, its HTTP status is no error and its
      validation carries the status code "00", whatever its lines say. */
  lemma AcceptedExactly(r: Reply)
    ensures Classify(r).Accepted? <==>
      && r.Parsed? && r.http < 400
      && r.validation.Some? && r.validation.value.statusCode == Some("00")
    ensures Classify(r).Accepted? ==> Classify(r) == Accepted(r.number)
  {
  }

  /** What any other parsed reply raises: line n is the first whose status is not "00". A
      known code of that line decides, else the HTTP status, else it is a validation error. */
  lemma RaisedExactly(r: Reply, statuses: seq<LineStatus>, n: nat)
    requires r.Parsed? && !Classify(r).Accepted?
    requires statuses == if r.validation.Some? then r.validation.value.statuses else []
    requires n <= |statuses| && forall j :: 0 <= j < n ==> statuses[j].statusCode == Some("00")
    requires n < |statuses| ==> statuses[n].statusCode != Some("00")
    ensures var code := if n < |statuses| then statuses[n].errorCode else None;
      Classify(r) == Raised(
        if code in {Some("0500"), Some("0503")} then TRANSIENT
        else if code in {Some("0401"), Some("0403")} then AUTH
        else if code in {Some("0100"), Some("0101"), Some("0102")} then BUSINESS
        else if code in {Some("0053"), Some("0001"), Some("0010"), Some("0011"), Some("0020")} then VALIDATION
        else if r.http in {401, 403} then AUTH
        else if 500 <= r.http <= 599 then TRANSIENT
        else VALIDATION)
  {
    FirstErrorIsFirst(statuses, n);
  }

  /** Without a parsed body a reply is always retried. */
  lemma UnparsedIsTransient(r: Reply)
    requires !r.Parsed?
    ensures Classify(r) == Raised(TRANSIENT)
  {
  }

  /** A parsed reply is retried exactly when it is no success and either the first failing
      line carries one of the two transient codes, or its code is unknown and the HTTP
      status is 5xx. A known code beats the HTTP status, and a success body under an error
      status is no success. */
  lemma RetriedExactly(r: Reply)
    requires r.Parsed?
    ensures Retryable(r) <==>
      && !(r.http < 400 && r.validation.Some? && r.validation.value.statusCode == Some("00"))
      && var code := FirstErrorCode(r);
        (code in {Some("0500"), Some("0503")}
         || ((code.None? || code.value !in ERROR_CODE_MAP) && 500 <= r.http < 600))
  {
    var code := FirstErrorCode(r);
    if code.Some? && code.value in ERROR_CODE_MAP {
      assert ERROR_CODE_MAP[code.value] == TRANSIENT <==> code.value in {"0500", "0503"};
    }
  }
}
