/**
 * The two request guards of the user controller: the count check in front of user
 * generation, together with the download name the response carries, and the
 * content-type and emptiness checks in front of a batch upload, whose every failure
 * becomes a 400 response.
 */
module UserController {
  import opened Wrappers
  import opened Entities
  import opened UserGeneration
  import opened UserImport
  import opened UserService
  import Roles

  /** The largest number of users one generation request may ask for. */
  const MaxGeneratedUsers := 200000

  /** The content type an upload must declare. */
  const JsonContentType := "application/json"

  predicate ValidCount(count: int)
  {
    0 < count <= MaxGeneratedUsers
  }

  // Decimal rendering of the count in the download name

  function DigitChar(d: nat): (c: char)
    requires d < 10
    ensures '0' <= c <= '9' && c as int - '0' as int == d
  {
    (d + '0' as int) as char
  }

  function DigitValue(c: char): (d: nat)
    requires '0' <= c <= '9'
    ensures d < 10 && DigitChar(d) == c
  {
    c as int - '0' as int
  }

  predicate AllDigits(s: string)
  {
    forall i :: 0 <= i < |s| ==> '0' <= s[i] <= '9'
  }

  /** The decimal digits of n, most significant first, without leading zeros. */
  function Decimal(n: nat): (s: string)
    ensures |s| > 0 && AllDigits(s)
    ensures |s| > 1 ==> s[0] != '0'
    decreases n
  {
    if n < 10 then [DigitChar(n)] else Decimal(n / 10) + [DigitChar(n % 10)]
  }

  /** The number a string of digits spells. */
  function ParseDecimal(s: string): nat
    requires AllDigits(s)
    decreases |s|
  {
    if s == [] then 0 else ParseDecimal(s[..|s| - 1]) * 10 + DigitValue(s[|s| - 1])
  }

  /** Reading the rendered digits back gives the number. */
  lemma {:induction false} DecimalRoundTrip(n: nat)
    ensures ParseDecimal(Decimal(n)) == n
    decreases n
  {
    var s := Decimal(n);
    if n >= 10 {
      DecimalRoundTrip(n / 10);
      assert s[..|s| - 1] == Decimal(n / 10);
      assert s[|s| - 1] == DigitChar(n % 10);
    }
  }

  /** The name of the downloaded file for a generation of `count` users. */
  function AttachmentName(count: nat): (name: string)
    ensures |name| > 21 && name[..10] == "generated_" && name[|name| - 11..] == "_users.json"
    ensures AllDigits(name[10..|name| - 11]) && ParseDecimal(name[10..|name| - 11]) == count
  {
    var name := "generated_" + Decimal(count) + "_users.json";
    DecimalRoundTrip(count);
    assert name[10..|name| - 11] == Decimal(count);
    name
  }

  /** Different counts download under different names. */
  lemma AttachmentNameInjective(a: nat, b: nat)
    requires AttachmentName(a) == AttachmentName(b)
    ensures a == b
  {
    var x, y := AttachmentName(a), AttachmentName(b);
    assert Decimal(a) == x[10..|x| - 11];
    assert Decimal(b) == y[10..|y| - 11];
    DecimalRoundTrip(a);
    DecimalRoundTrip(b);
  }

  // Generation endpoint

  datatype GenerateResponse =
    | Rejected(error: ServiceError)
    | NoContent
    | Ok(filename: string, body: seq<GeneratedUser>)

  /**
   * The generation endpoint, with `generate` standing for the service call: counts
   * outside 1..200000 are refused before the service is asked, an empty result is
   * answered with no content, anything else is sent as a named attachment.
   */
  function GenerateUser(count: int, generate: int -> seq<GeneratedUser>): (r: GenerateResponse)
    ensures r.Rejected? <==> !ValidCount(count)
    ensures r.Rejected? ==> r.error == ResourceNotFound
    ensures r.NoContent? <==> ValidCount(count) && generate(count) == []
    ensures r.Ok? ==> r.body == generate(count) && r.body != [] && r.filename == AttachmentName(count)
  {
    if count <= 0 || count > MaxGeneratedUsers then Rejected(ResourceNotFound)
    else
      var users := generate(count);
      if users == [] then NoContent else Ok(AttachmentName(count), users)
  }

  /**
   * With the real generator behind it, an accepted count always yields an attachment
   * of exactly `count` users, none with the USER role, and the no-content branch is
   * never taken.
   */
  lemma GenerateUserWithService(count: int, procs: int, draw: int -> Draw)
    ensures var r := GenerateUser(count, c => GenerateUsers(c, procs, draw));
            if ValidCount(count) then
              r.Ok? && |r.body| == count && r.filename == AttachmentName(count)
              && forall u :: u in r.body ==> u.role != Roles.USER
            else r == Rejected(ResourceNotFound)
  {
    if ValidCount(count) {
      assert |GenerateUsers(count, procs, draw)| == count;
    }
  }

  // Upload endpoint

  /** The uploaded part: its declared type, its size and what the JSON reader makes of it. */
  datatype UploadedFile = UploadedFile(contentType: Option<string>, size: nat, parsed: Option<seq<UserResponse>>)

  datatype UploadResponse =
    | BadRequest
    | Accepted(summary: UploadSummary)

  /** Why the guard refused an upload; both are raised as ResourceNotFound, with different messages. */
  datatype UploadRejection = InvalidFileFormat | EmptyFile

  /**
   * The checks made before the service is called: the declared type first, so a file
   * of the wrong type is refused for its type even when it is also empty.
   */
  function UploadGuard(file: UploadedFile): (r: Outcome<UploadRejection>)
    ensures r == Fail(InvalidFileFormat) <==> file.contentType != Some(JsonContentType)
    ensures r == Fail(EmptyFile) <==> file.contentType == Some(JsonContentType) && file.size == 0
    ensures r.Pass? <==> file.contentType == Some(JsonContentType) && file.size > 0
  {
    if file.contentType != Some(JsonContentType) then Fail(InvalidFileFormat)
    else if file.size == 0 then Fail(EmptyFile)
    else Pass
  }

  /**
   * The upload endpoint: a failed guard or a failed service call is answered with
   * 400 and leaves the store as it was; otherwise the records are imported and the
   * summary returned.
   */
  method UploadUserBatch(service: UserServiceImpl, file: UploadedFile, encode: string -> string)
    returns (r: UploadResponse)
    modifies service
    ensures (UploadGuard(file).Fail? || file.parsed.None?) ==> r == BadRequest && service.users == old(service.users)
    ensures UploadGuard(file).Pass? && file.parsed.Some? ==>
              var outcome := Import(old(service.users), file.parsed.value, encode);
              service.users == outcome.users
              && r == Accepted(Summarize(|file.parsed.value|, outcome.imported))
    ensures r.Accepted? ==> 0 <= r.summary.successfullyImported <= r.summary.totalRecords
    ensures service.tokens == old(service.tokens) && service.tokenBulkWrites == old(service.tokenBulkWrites)
  {
    if UploadGuard(file).Fail? {
      return BadRequest;
    }
    var result := service.UploadBatch(file.parsed, encode);
    if result.Failure? {
      return BadRequest;
    }
    r := Accepted(result.value);
  }
}
