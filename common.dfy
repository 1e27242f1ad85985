/** Values shared by every layer of the API: optional values, document-store
    object ids and their 24-character hex form, the decimal parser used for
    integer query parameters, and the uniform response envelope. */
module Common {

  datatype Option<+T> = None | Some(value: T)

  type Byte = b: int | 0 <= b < 256

  /** A document-store object id: twelve bytes. */
  type ObjectId = s: seq<Byte> | |s| == 12 witness [0, 0, 0, 0, 0, 0, 0, 0, 0, 0, 0, 0]

  /** The all-zero id, which the handlers treat as "no id supplied". */
  const NilObjectId: ObjectId := [0, 0, 0, 0, 0, 0, 0, 0, 0, 0, 0, 0]

  predicate IsZero(id: ObjectId) { id == NilObjectId }

  predicate IsHexDigit(c: char) {
    ('0' <= c <= '9') || ('a' <= c <= 'f') || ('A' <= c <= 'F')
  }

  function HexValue(c: char): (v: int)
    requires IsHexDigit(c)
    ensures 0 <= v < 16
  {
    if '0' <= c <= '9' then c as int - '0' as int
    else if 'a' <= c <= 'f' then c as int - 'a' as int + 10
    else c as int - 'A' as int + 10
  }

  /** The lower-case digit for 0 <= v < 16, as hex encoding writes it. */
  function HexDigit(v: int): (c: char)
    requires 0 <= v < 16
    ensures IsHexDigit(c) && HexValue(c) == v
  {
    if v < 10 then ('0' as int + v) as char else ('a' as int + v - 10) as char
  }

  predicate AllHex(s: string) {
    forall i :: 0 <= i < |s| ==> IsHexDigit(s[i])
  }

  /** The strings the id parser accepts: exactly 24 hex digits, either case. */
  predicate IsHexId(s: string) {
    |s| == 24 && AllHex(s)
  }

  /** The byte written by two hex digits, high digit first. */
  function PairValue(hi: char, lo: char): Byte
    requires IsHexDigit(hi) && IsHexDigit(lo)
  {
    HexValue(hi) * 16 + HexValue(lo)
  }

  /** Decodes pairs of hex digits into bytes, as hex decoding does. */
  function DecodePairs(s: string): (b: seq<Byte>)
    requires |s| % 2 == 0 && AllHex(s)
    ensures |b| == |s| / 2
  {
    if s == [] then [] else [PairValue(s[0], s[1])] + DecodePairs(s[2..])
  }

  /** Parsing an id from its hex form: fails unless the text is 24 hex digits. */
  function FromHex(s: string): (r: Option<ObjectId>)
    ensures r.Some? <==> IsHexId(s)
  {
    if IsHexId(s) then Some(DecodePairs(s)) else None
  }

  /** The two lower-case hex digits of a byte. */
  function ByteHex(b: Byte): (s: string)
    ensures |s| == 2 && AllHex(s) && PairValue(s[0], s[1]) == b
  {
    [HexDigit(b / 16), HexDigit(b % 16)]
  }

  /** The lower-case hex form of a byte string, two digits per byte. */
  function ToHex(id: seq<Byte>): (s: string)
    ensures |s| == 2 * |id| && AllHex(s)
  {
    if id == [] then [] else ByteHex(id[0]) + ToHex(id[1..])
  }

  /** Decoding the hex form of a byte string gives the bytes back. */
  lemma {:induction false} DecodeToHex(id: seq<Byte>)
    ensures DecodePairs(ToHex(id)) == id
  {
    if id != [] {
      var s := ToHex(id);
      assert s[2..] == ToHex(id[1..]);
      DecodeToHex(id[1..]);
    }
  }

  /** Printing an id and parsing it back gives the same id. */
  lemma FromHexToHex(id: ObjectId)
    ensures FromHex(ToHex(id)) == Some(id)
  {
    DecodeToHex(id);
  }

  predicate IsDecimalDigit(c: char) { '0' <= c <= '9' }

  function DigitsValue(s: string): (n: nat)
    requires forall i :: 0 <= i < |s| ==> IsDecimalDigit(s[i])
  {
    if s == [] then 0
    else
      assert IsDecimalDigit(s[|s| - 1]);
      DigitsValue(s[..|s| - 1]) * 10 + (s[|s| - 1] as int - '0' as int)
  }

  /** At least one character, every one a decimal digit. */
  predicate AllDigits(s: string) {
    s != [] && forall i :: 0 <= i < |s| ==> IsDecimalDigit(s[i])
  }

  /** strconv.Atoi: an optional sign followed by at least one decimal digit. */
  function ParseInt(s: string): (r: Option<int>)
    ensures r.Some? <==> AllDigits(s) || (s != [] && (s[0] == '-' || s[0] == '+') && AllDigits(s[1..]))
    ensures AllDigits(s) ==> r == Some(DigitsValue(s))
    ensures s != [] && s[0] == '-' && AllDigits(s[1..]) ==> r == Some(-(DigitsValue(s[1..]) as int))
    ensures s != [] && s[0] == '+' && AllDigits(s[1..]) ==> r == Some(DigitsValue(s[1..]))
  {
    if s == [] then None
    else if s[0] == '-' || s[0] == '+' then
      var digits := s[1..];
      if digits != [] && forall i :: 0 <= i < |digits| ==> IsDecimalDigit(digits[i]) then
        var n: int := if s[0] == '-' then -(DigitsValue(digits) as int) else DigitsValue(digits);
        Some(n)
      else None
    else if forall i :: 0 <= i < |s| ==> IsDecimalDigit(s[i]) then Some(DigitsValue(s))
    else None
  }

  /** An HTTP query string, key to raw value. */
  type Query = map<string, string>

  /** A query parameter, or the default when it is absent or empty. */
  function QueryOr(q: Query, key: string, default: string): (v: string)
    ensures v == default <== (key !in q || q[key] == "")
    ensures key in q && q[key] != "" ==> v == q[key]
  {
    if key in q && q[key] != "" then q[key] else default
  }

  /** An integer query parameter; the default when absent or not a decimal integer. */
  function QueryInt(q: Query, key: string, default: int): (v: int)
    ensures key in q && ParseInt(q[key]).Some? ==> v == ParseInt(q[key]).value
    ensures (key !in q || ParseInt(q[key]).None?) ==> v == default
  {
    if key in q then
      match ParseInt(q[key])
      case Some(n) => n
      case None => default
    else default
  }

  /** A required id query parameter: the first message when it is absent or
      empty, the second unless it is 24 hex digits. */
  function QueryId(q: Query, missing: string, invalid: string): (r: Result<ObjectId>)
    ensures r.Success? <==> "id" in q && IsHexId(q["id"])
    ensures r.Success? ==> FromHex(q["id"]) == Some(r.value)
    ensures r.Failure? ==> r.error == if QueryOr(q, "id", "") == "" then missing else invalid
  {
    var s := QueryOr(q, "id", "");
    if s == "" then Failure(missing)
    else match FromHex(s)
      case None => Failure(invalid)
      case Some(id) => Success(id)
  }

  /** strconv.ParseBool: the six spellings of each truth value; anything else is an error. */
  function ParseBool(s: string): Option<bool> {
    if s in {"1", "t", "T", "TRUE", "true", "True"} then Some(true)
    else if s in {"0", "f", "F", "FALSE", "false", "False"} then Some(false)
    else None
  }

  /** strconv.FormatBool. */
  function FormatBool(b: bool): string {
    if b then "true" else "false"
  }

  /** Formatting a truth value and parsing it back gives it back. */
  lemma ParseFormatBool(b: bool)
    ensures ParseBool(FormatBool(b)) == Some(b)
  {
  }

  const StatusOK := 200
  const StatusCreated := 201
  const StatusBadRequest := 400
  const StatusNotFound := 404
  const StatusInternalServerError := 500

  /** The uniform response: an HTTP status code, "success" or "error", a message and an optional payload. */
  datatype Reply<T> = Reply(code: int, status: string, message: string, data: Option<T>)

  function Fail<T>(code: int, message: string): (r: Reply<T>)
    ensures r.code == code && r.status == "error" && r.data.None?
  {
    Reply(code, "error", message, None)
  }

  function Ok<T>(message: string, data: T): (r: Reply<T>)
    ensures r.code == StatusOK && r.status == "success" && r.data == Some(data)
  {
    Reply(StatusOK, "success", message, Some(data))
  }

  /** The payload of a paged list reply: the page's items, the total number
      of matches, and the page and limit the request asked for. */
  datatype PageData<T> = PageData(items: seq<T>, total: nat, page: int, limit: int)

  /** The payload of an unpaged list reply: the items and the total number of matches. */
  datatype ListData<T> = ListData(items: seq<T>, total: nat)

  /** An outcome that is either a value or an error message. */
  datatype Result<T> = Success(value: T) | Failure(error: string)

  /** The store's error when it cannot be reached or refuses an operation the model does not explain further. */
  const ErrUnavailable := "store unavailable"

  /** The store's error for a single-document lookup that matches nothing. */
  const ErrNoDocuments := "mongo: no documents in result"
}
