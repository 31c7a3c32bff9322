/**
 * The API's authentication middleware (packages/backend/src/api/middleware/telegram-auth.ts):
 * it checks Telegram Mini App init data sent as `Authorization: tma <initData>`
 * as Telegram's Bot API documentation describes under "Validating data received
 * via the Mini App". The data-check string is built from the query parameters,
 * and the signature is HMAC-SHA256 (RFC 2104) keyed by HMAC-SHA256("WebAppData",
 * bot token). HMAC, UTF-8 encoding, percent-decoding and JSON parsing are foreign
 * and enter as function parameters.
 */
module TelegramAuth {
  import opened Common
  import opened Text
  import opened Store

  // ---------------------------------------------------------------- bypass

  /** Static car pictures and the health check need no authentication. */
  predicate Bypassed(url: string) {
    StartsWith(url, "/cars/") || url == "/api/health"
  }

  // ------------------------------------------------- URLSearchParams parsing

  predicate NotAmpersand(c: char) { c != '&' }
  predicate NotEquals(c: char) { c != '=' }

  /** The pieces of `s` between `&` separators. */
  function SplitAmpersand(s: string): (r: seq<string>)
    ensures |r| >= 1
    ensures forall p, k :: p in r && 0 <= k < |p| ==> p[k] != '&'
    decreases |s|
  {
    var k := RunEnd(s, 0, NotAmpersand);
    if k == |s| then [s] else [s[..k]] + SplitAmpersand(s[k + 1..])
  }

  /** `+` stands for a space in form-encoded text. */
  function PlusToSpace(s: string): (r: string)
    ensures |r| == |s|
    ensures forall k :: 0 <= k < |s| ==> r[k] == if s[k] == '+' then ' ' else s[k]
  {
    seq(|s|, k requires 0 <= k < |s| => if s[k] == '+' then ' ' else s[k])
  }

  /** One name-value piece: split at the first `=`, then decoded. */
  function ParsePair(piece: string, percentDecode: string -> string): (string, string) {
    var k := RunEnd(piece, 0, NotEquals);
    var name := piece[..k];
    var value := if k < |piece| then piece[k + 1..] else "";
    (percentDecode(PlusToSpace(name)), percentDecode(PlusToSpace(value)))
  }

  /** `new URLSearchParams(init)`: a leading `?` is dropped and empty pieces are skipped. */
  function ParseParams(init: string, percentDecode: string -> string): seq<(string, string)> {
    var body := if init != [] && init[0] == '?' then init[1..] else init;
    PairsOf(SplitAmpersand(body), percentDecode)
  }

  function PairsOf(pieces: seq<string>, percentDecode: string -> string): seq<(string, string)> {
    if pieces == [] then []
    else (if pieces[0] == [] then [] else [ParsePair(pieces[0], percentDecode)]) + PairsOf(pieces[1..], percentDecode)
  }

  /** `params.get(key)`: the value of the first pair with that name. */
  function Get(params: seq<(string, string)>, key: string): (r: Option<string>)
    ensures r.Some? ==> (key, r.value) in params
    ensures r.None? ==> forall p :: p in params ==> p.0 != key
  {
    if params == [] then None
    else if params[0].0 == key then Some(params[0].1)
    else Get(params[1..], key)
  }

  /** `params.delete(key)`: every pair with that name is removed. */
  function Without(params: seq<(string, string)>, key: string): (r: seq<(string, string)>)
    ensures forall p :: p in r <==> p in params && p.0 != key
    ensures multiset(r) <= multiset(params)
  {
    if params == [] then []
    else
      assert params == [params[0]] + params[1..];
      (if params[0].0 == key then [] else [params[0]]) + Without(params[1..], key)
  }

  // ------------------------------------------------- the data-check string

  /** Key order: code points compared lexicographically. */
  predicate Less(a: string, b: string) {
    if a == [] then b != []
    else if b == [] then false
    else if a[0] != b[0] then a[0] < b[0]
    else Less(a[1..], b[1..])
  }

  lemma {:induction false} LessTransitive(a: string, b: string, c: string)
    requires Less(a, b) && Less(b, c)
    ensures Less(a, c)
    decreases |a|
  {
    if a != [] && b != [] && c != [] && a[0] == b[0] && b[0] == c[0] {
      LessTransitive(a[1..], b[1..], c[1..]);
    }
  }

  lemma {:induction false} LessIrreflexive(a: string)
    ensures !Less(a, a)
    decreases |a|
  {
    if a != [] {
      LessIrreflexive(a[1..]);
    }
  }

  predicate SortedByKey(ps: seq<(string, string)>) {
    forall i, j :: 0 <= i < j < |ps| ==> !Less(ps[j].0, ps[i].0)
  }

  /** The position of the first pair whose name sorts after `key`. */
  function FirstAfter(ps: seq<(string, string)>, key: string): (k: nat)
    ensures k <= |ps|
    ensures forall i :: 0 <= i < k ==> !Less(key, ps[i].0)
    ensures k < |ps| ==> Less(key, ps[k].0)
  {
    if ps == [] || Less(key, ps[0].0) then 0 else 1 + FirstAfter(ps[1..], key)
  }

  /** Inserts a pair after every pair whose name does not sort after its own (a stable insertion). */
  function InsertByKey(ps: seq<(string, string)>, p: (string, string)): (r: seq<(string, string)>)
    ensures multiset(r) == multiset(ps) + multiset{p}
  {
    var k := FirstAfter(ps, p.0);
    assert ps == ps[..k] + ps[k..];
    ps[..k] + [p] + ps[k..]
  }

  lemma InsertByKeySorted(ps: seq<(string, string)>, p: (string, string))
    requires SortedByKey(ps)
    ensures SortedByKey(InsertByKey(ps, p))
  {
    var k := FirstAfter(ps, p.0);
    var r := InsertByKey(ps, p);
    forall i, j | 0 <= i < j < |r|
      ensures !Less(r[j].0, r[i].0)
    {
      if j < k {
        assert r[i] == ps[i] && r[j] == ps[j];
      } else if j == k {
        assert r[i] == ps[i] && r[j] == p;
      } else if i < k {
        assert r[i] == ps[i] && r[j] == ps[j - 1];
      } else if i == k {
        assert r[i] == p && r[j] == ps[j - 1];
        if Less(ps[j - 1].0, p.0) {
          LessTransitive(ps[j - 1].0, p.0, ps[k].0);
          LessIrreflexive(ps[k].0);
          assert false;
        }
      } else {
        assert r[i] == ps[i - 1] && r[j] == ps[j - 1];
      }
    }
  }

  /** `.sort(([a], [b]) => …)`: a stable sort by name. */
  function SortByKey(ps: seq<(string, string)>): (r: seq<(string, string)>)
    ensures SortedByKey(r) && multiset(r) == multiset(ps)
    decreases |ps|
  {
    if ps == [] then []
    else
      var init := SortByKey(ps[..|ps| - 1]);
      InsertByKeySorted(init, ps[|ps| - 1]);
      assert ps == ps[..|ps| - 1] + [ps[|ps| - 1]];
      InsertByKey(init, ps[|ps| - 1])
  }

  /** `.map(([key, value]) => `${key}=${value}`)` */
  function Render(ps: seq<(string, string)>): (lines: seq<string>)
    ensures |lines| == |ps|
    ensures forall k :: 0 <= k < |ps| ==> lines[k] == ps[k].0 + "=" + ps[k].1
  {
    seq(|ps|, k requires 0 <= k < |ps| => ps[k].0 + "=" + ps[k].1)
  }

  /** The pairs the data-check string lists, in order: every pair but `hash`, sorted by name. */
  function CheckedPairs(params: seq<(string, string)>): (r: seq<(string, string)>)
    ensures SortedByKey(r)
    ensures multiset(r) == multiset(Without(params, "hash"))
    ensures forall p :: p in r <==> p in params && p.0 != "hash"
  {
    var r := SortByKey(Without(params, "hash"));
    assert forall p :: p in r <==> p in multiset(r);
    r
  }

  /** The data-check string: `key=value` lines joined by a line feed. */
  function DataCheckString(params: seq<(string, string)>): string {
    Join(Render(CheckedPairs(params)), "\n")
  }

  // ----------------------------------------------------------------- hex

  const HexDigits: string := "0123456789abcdef"

  /** `digest("hex")`: two lower-case hexadecimal digits per byte. */
  function Hex(bytes: seq<Byte>): (s: string)
    ensures |s| == 2 * |bytes|
  {
    if bytes == [] then []
    else [HexDigits[bytes[0] / 16], HexDigits[bytes[0] % 16]] + Hex(bytes[1..])
  }

  function HexValue(c: char): (r: Option<nat>)
    ensures r.Some? ==> r.value < 16
  {
    if '0' <= c <= '9' then Some(c as int - '0' as int)
    else if 'a' <= c <= 'f' then Some(c as int - 'a' as int + 10)
    else None
  }

  /** Reads a lower-case hexadecimal string back as bytes. */
  function Unhex(s: string): Option<seq<Byte>>
    decreases |s|
  {
    if |s| < 2 then (if s == [] then Some([]) else None)
    else
      var hi := HexValue(s[0]);
      var lo := HexValue(s[1]);
      var rest := Unhex(s[2..]);
      if hi.Some? && lo.Some? && rest.Some? then Some([hi.value * 16 + lo.value] + rest.value) else None
  }

  lemma HexDigitValue(n: nat)
    requires n < 16
    ensures HexValue(HexDigits[n]) == Some(n)
  {
  }

  /** The hex rendering of a digest determines the digest. */
  lemma {:induction false} UnhexHex(bytes: seq<Byte>)
    ensures Unhex(Hex(bytes)) == Some(bytes)
    decreases |bytes|
  {
    if bytes != [] {
      var s := Hex(bytes);
      var b := bytes[0];
      var pair := [HexDigits[b / 16], HexDigits[b % 16]];
      assert s == pair + Hex(bytes[1..]);
      assert s[0] == pair[0] && s[1] == pair[1] && s[2..] == Hex(bytes[1..]);
      HexDigitValue(b / 16);
      HexDigitValue(b % 16);
      UnhexHex(bytes[1..]);
      UnhexPair(s, b / 16, b % 16, bytes[1..]);
      assert [b] + bytes[1..] == bytes;
    }
  }

  /** Two hex digits followed by a readable rest read as their byte before the rest. */
  lemma UnhexPair(s: string, hi: nat, lo: nat, rest: seq<Byte>)
    requires |s| >= 2 && HexValue(s[0]) == Some(hi) && HexValue(s[1]) == Some(lo)
    requires Unhex(s[2..]) == Some(rest)
    ensures Unhex(s) == Some([hi * 16 + lo] + rest)
  {
  }

  /** Two digests with the same hex rendering are equal. */
  lemma HexInjective(a: seq<Byte>, b: seq<Byte>)
    requires Hex(a) == Hex(b)
    ensures a == b
  {
    UnhexHex(a);
    UnhexHex(b);
  }

  // ---------------------------------------------------------- the check

  /** The foreign primitives the check uses. */
  datatype Primitives = Primitives(
    hmac: (seq<Byte>, seq<Byte>) -> seq<Byte>,  // HMAC-SHA256(key, message)
    utf8: string -> seq<Byte>,
    percentDecode: string -> string,
    userIdOf: string -> Option<int>)           // `JSON.parse(user).id`; None when the parse throws

  /** The hex HMAC the init data must carry for this bot. */
  function ExpectedHash(token: string, params: seq<(string, string)>, f: Primitives): string {
    var secretKey := f.hmac(f.utf8("WebAppData"), f.utf8(token));
    Hex(f.hmac(secretKey, f.utf8(DataCheckString(params))))
  }

  /** What the middleware does with a request. */
  datatype Verdict =
    | Skipped                                             // bypassed: nothing checked, nothing set
    | Rejected(error: string)                             // answered 401 with this error
    | Crashed                                             // `JSON.parse` threw; the request fails
    | Authenticated(telegramUserId: int, dbUserId: Option<nat>)

  /** The checks on the parsed init data, from the `hash` pair on. */
  function CheckInitData(params: seq<(string, string)>, token: string, users: seq<User>, f: Primitives): Verdict {
    var hash := Get(params, "hash");
    if hash.None? || hash.value == "" then Rejected("Invalid initData")
    else
      var rest := Without(params, "hash");
      if ExpectedHash(token, rest, f) != hash.value then Rejected("Invalid hash")
      else
        var user := Get(rest, "user");
        if user.None? || user.value == "" then Rejected("Missing user data")
        else match f.userIdOf(user.value)
          case None => Crashed
          case Some(id) => Authenticated(id, UserByTelegramId(users, id, 0))
  }

  /** `telegramAuthMiddleware`'s decision. */
  function Authenticate(url: string, authorization: Option<string>, token: string, users: seq<User>, f: Primitives): Verdict {
    if Bypassed(url) then Skipped
    else if authorization.None? || !StartsWith(authorization.value, "tma ") then Rejected("Missing authorization")
    else CheckInitData(ParseParams(authorization.value[4..], f.percentDecode), token, users, f)
  }

  /** Bypassed URLs are never checked, whatever the header. */
  lemma BypassIgnoresHeader(url: string, a1: Option<string>, a2: Option<string>, token: string, users: seq<User>, f: Primitives)
    requires Bypassed(url)
    ensures Authenticate(url, a1, token, users, f) == Authenticate(url, a2, token, users, f) == Skipped
  {
  }

  /** A header without the `tma ` scheme is refused. */
  lemma HeaderNeedsScheme(url: string, authorization: Option<string>, token: string, users: seq<User>, f: Primitives)
    requires !Bypassed(url) && (authorization.None? || !StartsWith(authorization.value, "tma "))
    ensures Authenticate(url, authorization, token, users, f) == Rejected("Missing authorization")
  {
  }

  /** Without a `hash` the request is refused before any HMAC is computed: the outcome does not depend on it. */
  lemma MissingHashNeedsNoHmac(params: seq<(string, string)>, token: string, users: seq<User>, f: Primitives, g: Primitives)
    requires Get(params, "hash").None? || Get(params, "hash").value == ""
    ensures CheckInitData(params, token, users, f) == CheckInitData(params, token, users, g) == Rejected("Invalid initData")
  {
  }

  /**
   * Init data gets past the signature check exactly when its `hash` is the hex
   * HMAC of its data-check string, which leaves the `hash` pair out.
   */
  lemma SignatureDecides(params: seq<(string, string)>, token: string, users: seq<User>, f: Primitives)
    requires Get(params, "hash").Some? && Get(params, "hash").value != ""
    ensures CheckInitData(params, token, users, f) == Rejected("Invalid hash")
      <==> ExpectedHash(token, Without(params, "hash"), f) != Get(params, "hash").value
  {
    var v := CheckInitData(params, token, users, f);
    var rest := Without(params, "hash");
    if ExpectedHash(token, rest, f) == Get(params, "hash").value {
      var user := Get(rest, "user");
      if user.None? || user.value == "" {
        assert v == Rejected("Missing user data");
        assert |"Missing user data"| != |"Invalid hash"|;
      } else {
        assert !v.Rejected?;
      }
    }
  }

  /** Authenticated init data carried the right signature, and the user row found, if any, has its Telegram id. */
  lemma AuthenticatedIsSigned(params: seq<(string, string)>, token: string, users: seq<User>, f: Primitives)
    ensures var v := CheckInitData(params, token, users, f);
      v.Authenticated? ==>
        (&& Get(params, "hash").Some?
         && ExpectedHash(token, Without(params, "hash"), f) == Get(params, "hash").value
         && Get(Without(params, "hash"), "user").Some?
         && f.userIdOf(Get(Without(params, "hash"), "user").value) == Some(v.telegramUserId)
         && (v.dbUserId.Some? ==>
               IsRowId(|users|, v.dbUserId.value) && users[v.dbUserId.value - 1].telegramId == v.telegramUserId)
         && (v.dbUserId.None? ==> forall u :: u in users ==> u.telegramId != v.telegramUserId))
  {
    var v := CheckInitData(params, token, users, f);
    if v.Authenticated? && v.dbUserId.None? {
      forall u | u in users ensures u.telegramId != v.telegramUserId {
        var i :| 0 <= i < |users| && users[i] == u;
      }
    }
  }

  /** A `hash` pair added to the init data leaves the string that is signed as it was. */
  lemma DataCheckStringSkipsHash(params: seq<(string, string)>, value: string)
    ensures DataCheckString(params + [("hash", value)]) == DataCheckString(params)
  {
    var a := Without(params + [("hash", value)], "hash");
    var b := Without(params, "hash");
    WithoutAppendHash(params, value);
    assert a == b;
  }

  lemma {:induction false} WithoutAppendHash(params: seq<(string, string)>, value: string)
    ensures Without(params + [("hash", value)], "hash") == Without(params, "hash")
    decreases |params|
  {
    if params == [] {
      assert Without([("hash", value)], "hash") == [] + Without([], "hash");
    } else {
      assert (params + [("hash", value)])[1..] == params[1..] + [("hash", value)];
      WithoutAppendHash(params[1..], value);
    }
  }

  // ------------------------------------------------- the request object

  /** The request fields the middleware reads and the two it sets. */
  class Request {
    const url: string
    const authorization: Option<string>
    var telegramUserId: Option<int>
    var dbUserId: Option<nat>

    constructor(url: string, authorization: Option<string>)
      ensures this.url == url && this.authorization == authorization
      ensures telegramUserId.None? && dbUserId.None?
    {
      this.url := url;
      this.authorization := authorization;
      telegramUserId := None;
      dbUserId := None;
    }
  }

  /** `telegramAuthMiddleware`: answers 401 with an error, or lets the request through with its user set. */
  method TelegramAuthMiddleware(request: Request, token: string, users: seq<User>, f: Primitives)
    returns (reply: Option<string>, failed: bool)
    modifies request
    ensures var v := Authenticate(request.url, request.authorization, token, users, f);
      && (reply.Some? <==> v.Rejected?)
      && (v.Rejected? ==> reply == Some(v.error))
      && failed == v.Crashed?
      && (v.Authenticated? ==>
            request.telegramUserId == Some(v.telegramUserId)
            && request.dbUserId == (if v.dbUserId.Some? then v.dbUserId else old(request.dbUserId)))
      && (!v.Authenticated? ==> request.telegramUserId == old(request.telegramUserId) && request.dbUserId == old(request.dbUserId))
  {
    var v := Authenticate(request.url, request.authorization, token, users, f);
    reply, failed := None, false;
    match v
    case Skipped =>
    case Rejected(e) => reply := Some(e);
    case Crashed => failed := true;
    case Authenticated(id, row) =>
      request.telegramUserId := Some(id);
      if row.Some? {
        request.dbUserId := row;
      }
  }
}
