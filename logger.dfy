/** The privacy-preserving pieces of the logger: identifier hashing, IP
    masking, CR/LF stripping, resource-path shortening, and the records the
    security log is made of. Writing the lines to files is not modelled. */
module Logger {
  import opened Wrappers
  import opened Strs
  import opened AppErrors

  // ---------------------------------------------------------------------
  // HashIdentifier
  // ---------------------------------------------------------------------

  /** A SHA-256 digest. */
  type Digest = d: seq<byte> | |d| == 32 witness seq(32, i => 0)

  const HexDigits: string := "0123456789abcdef"

  /** hex.EncodeToString: two lower-case digits per byte, high nibble first. */
  function Hex(bs: seq<byte>): (h: string)
    ensures |h| == 2 * |bs|
    ensures forall i :: 0 <= i < |h| ==> h[i] in HexDigits
  {
    if bs == [] then "" else [HexDigits[bs[0] / 16], HexDigits[bs[0] % 16]] + Hex(bs[1..])
  }

  lemma {:induction false} HexAppend(a: seq<byte>, b: seq<byte>)
    ensures Hex(a + b) == Hex(a) + Hex(b)
  {
    if a == [] {
      assert a + b == b;
    } else {
      assert (a + b)[0] == a[0];
      assert (a + b)[1..] == a[1..] + b;
      HexAppend(a[1..], b);
    }
  }

  /** The first 2k hex digits encode the first k bytes. */
  lemma HexPrefix(bs: seq<byte>, k: nat)
    requires k <= |bs|
    ensures Hex(bs)[..2 * k] == Hex(bs[..k])
  {
    var a := bs[..k];
    var b := bs[k..];
    assert a + b == bs;
    HexAppend(a, b);
    PrefixOfConcat(Hex(a), Hex(b));
  }

  const Anonymous := "anonymous"

  /** HashIdentifier, with `sha256` standing for sha256.Sum256 over the
      UTF-8 bytes of its argument. */
  function HashIdentifier(identifier: string, sha256: string -> Digest): (r: string)
    ensures identifier == "" || identifier == Anonymous ==> r == Anonymous
    ensures identifier != "" && identifier != Anonymous ==>
      && |r| == 13 && HasPrefix(r, "user_")
      && (forall i :: 5 <= i < 13 ==> r[i] in HexDigits)
      && r == "user_" + Hex(sha256(identifier)[..4])
  {
    if identifier == "" || identifier == Anonymous then Anonymous
    else
      var h := Hex(sha256(identifier));
      HexPrefix(sha256(identifier), 4);
      "user_" + h[..8]
  }

  /** A hashed identifier is never confused with the anonymous marker, and
      identifiers with the same digest prefix share a hash. */
  lemma HashIdentifierShape(a: string, b: string, sha256: string -> Digest)
    requires a != "" && a != Anonymous && b != "" && b != Anonymous
    ensures HashIdentifier(a, sha256) != Anonymous
    ensures sha256(a)[..4] == sha256(b)[..4] ==> HashIdentifier(a, sha256) == HashIdentifier(b, sha256)
  {
  }

  // ---------------------------------------------------------------------
  // MaskIP
  // ---------------------------------------------------------------------

  /** MaskIP: the first two dotted parts of an IPv4-shaped string, then "x.x". */
  function MaskIP(ip: string): (r: string)
    ensures ip == "" ==> r == "unknown"
    ensures ip != "" && Count(ip, '.') == 3 ==>
      r == Split(ip, '.')[0] + "." + Split(ip, '.')[1] + ".x.x"
    ensures ip != "" && Count(ip, '.') != 3 ==> r == "ip_present"
  {
    if ip == "" then "unknown"
    else
      var parts := Split(ip, '.');
      if |parts| == 4 then parts[0] + "." + parts[1] + ".x.x" else "ip_present"
  }

  lemma JoinFour(a: string, b: string, c: string, d: string, sep: char)
    ensures Join([a, b, c, d], sep) == a + [sep] + b + [sep] + c + [sep] + d
  {
    assert [c, d][1..] == [d];
    assert Join([c, d], sep) == c + [sep] + d;
    assert [b, c, d][1..] == [c, d];
    assert Join([b, c, d], sep) == b + [sep] + c + [sep] + d;
    assert [a, b, c, d][1..] == [b, c, d];
  }

  /** A masked IPv4 address is the join of its first two parts with "x", "x";
      only those two parts decide it, and masking it again changes nothing. */
  lemma MaskIPFourParts(ip: string, other: string)
    requires ip != "" && |Split(ip, '.')| == 4
    requires other != "" && |Split(other, '.')| == 4
    ensures MaskIP(ip) == Join(Split(ip, '.')[..2] + ["x", "x"], '.')
    ensures Split(ip, '.')[..2] == Split(other, '.')[..2] ==> MaskIP(ip) == MaskIP(other)
    ensures MaskIP(MaskIP(ip)) == MaskIP(ip)
  {
    var p := Split(ip, '.');
    SplitPiecesFree(ip, '.');
    var q := [p[0], p[1], "x", "x"];
    assert p[..2] + ["x", "x"] == q;
    JoinFour(p[0], p[1], "x", "x", '.');
    var r := MaskIP(ip);
    assert r == Join(q, '.');
    SplitJoin(q, '.');
    assert Split(r, '.') == q;
  }

  // ---------------------------------------------------------------------
  // RemoveCarriageReturns
  // ---------------------------------------------------------------------

  /** strings.ReplaceAll(s, string(c), ""). */
  function RemoveChar(s: string, c: char): (r: string)
    ensures c !in r && |r| <= |s|
    ensures forall i :: 0 <= i < |r| ==> r[i] in s
  {
    if s == [] then ""
    else if s[0] == c then RemoveChar(s[1..], c)
    else [s[0]] + RemoveChar(s[1..], c)
  }

  /** strings.ReplaceAll(s, "\r\n", ""): non-overlapping, left to right. */
  function RemoveCRLF(s: string): (r: string)
    ensures |r| <= |s|
    ensures forall i :: 0 <= i < |r| ==> r[i] in s
  {
    if |s| >= 2 && s[0] == '\r' && s[1] == '\n' then RemoveCRLF(s[2..])
    else if s == [] then ""
    else [s[0]] + RemoveCRLF(s[1..])
  }

  /** The reference: every character other than CR and LF, in order. */
  function KeepPrintable(s: string): (r: string)
    ensures '\r' !in r && '\n' !in r
  {
    if s == [] then ""
    else if s[0] == '\r' || s[0] == '\n' then KeepPrintable(s[1..])
    else [s[0]] + KeepPrintable(s[1..])
  }

  function RemoveCarriageReturns(input: string): (r: string)
    ensures '\r' !in r && '\n' !in r && |r| <= |input|
  {
    RemoveBothIsKeepPrintable(input);
    RemoveCRLFNoCR(KeepPrintable(input));
    RemoveCRLF(RemoveChar(RemoveChar(input, '\r'), '\n'))
  }

  lemma {:induction false} RemoveCRLFNoCR(s: string)
    requires '\r' !in s
    ensures RemoveCRLF(s) == s
  {
    if s != [] {
      RemoveCRLFNoCR(s[1..]);
      assert [s[0]] + s[1..] == s;
    }
  }

  lemma {:induction false} RemoveBothIsKeepPrintable(s: string)
    ensures RemoveChar(RemoveChar(s, '\r'), '\n') == KeepPrintable(s)
  {
    if s != [] {
      RemoveBothIsKeepPrintable(s[1..]);
    }
  }

  /** The three replacements together remove exactly the CR and LF characters. */
  lemma RemoveCarriageReturnsIsKeepPrintable(s: string)
    ensures RemoveCarriageReturns(s) == KeepPrintable(s)
  {
    RemoveBothIsKeepPrintable(s);
    RemoveCRLFNoCR(RemoveChar(RemoveChar(s, '\r'), '\n'));
  }

  /** Text without CR or LF passes through untouched. */
  lemma {:induction false} KeepPrintableClean(s: string)
    requires '\r' !in s && '\n' !in s
    ensures KeepPrintable(s) == s
  {
    if s != [] {
      KeepPrintableClean(s[1..]);
      assert [s[0]] + s[1..] == s;
    }
  }

  lemma RemoveCarriageReturnsIdempotent(s: string)
    ensures RemoveCarriageReturns(RemoveCarriageReturns(s)) == RemoveCarriageReturns(s)
  {
    var r := RemoveCarriageReturns(s);
    RemoveCarriageReturnsIsKeepPrintable(r);
    KeepPrintableClean(r);
  }

  // ---------------------------------------------------------------------
  // sanitizeResourcePath (logger.go and security.go hold identical copies)
  // ---------------------------------------------------------------------

  function SanitizeResourcePath(resource: string): (r: string)
    ensures |Split(resource, '/')| > 3 ==> r == Join(Split(resource, '/')[..3], '/') + "/*"
    ensures |Split(resource, '/')| <= 3 ==> r == resource
  {
    var parts := Split(resource, '/');
    if |parts| > 3 then Join(parts[..3], '/') + "/*" else resource
  }

  /** A shortened path has exactly four parts: the first three kept, then "*". */
  lemma SanitizeResourcePathShape(resource: string)
    requires |Split(resource, '/')| > 3
    ensures Split(SanitizeResourcePath(resource), '/') == Split(resource, '/')[..3] + ["*"]
  {
    var parts := Split(resource, '/');
    SplitPiecesFree(resource, '/');
    var q := parts[..3] + ["*"];
    JoinAppend(parts[..3], "*", '/');
    assert Join(q, '/') == Join(parts[..3], '/') + "/*";
    assert SanitizeResourcePath(resource) == Join(q, '/');
    assert forall i :: 0 <= i < |q| ==> '/' !in q[i];
    SplitJoin(q, '/');
  }

  /** Sanitizing twice is sanitizing once. */
  lemma SanitizeResourcePathIdempotent(resource: string)
    ensures SanitizeResourcePath(SanitizeResourcePath(resource)) == SanitizeResourcePath(resource)
  {
    if |Split(resource, '/')| > 3 {
      SanitizeResourcePathShape(resource);
      var r := SanitizeResourcePath(resource);
      var q := Split(resource, '/')[..3] + ["*"];
      assert Split(r, '/') == q && |q| == 4;
      assert q[..3] == Split(resource, '/')[..3];
      assert SanitizeResourcePath(r) == Join(q[..3], '/') + "/*";
    }
  }

  // ---------------------------------------------------------------------
  // Log records
  // ---------------------------------------------------------------------

  const CategoryAuth := "[AUTH]"
  const CategoryAPI := "[API]"
  const CategoryValidation := "[VALIDATION]"

  /** The text logger.Error writes (after the level prefix): the error's own
      text never appears, only whether there was one. */
  function ErrorLine(category: string, msg: string, err: Option<GoError>): string {
    var full := category + " " + RemoveCarriageReturns(msg);
    if err.Some? then full + ": error occurred" else full
  }

  lemma ErrorLineRedacts(category: string, msg: string, e1: GoError, e2: GoError)
    ensures ErrorLine(category, msg, Some(e1)) == ErrorLine(category, msg, Some(e2))
    ensures ErrorLine(category, msg, Some(e1)) == ErrorLine(category, msg, None) + ": error occurred"
  {
  }

  /** One line of the security log, without its timestamp. */
  datatype SecurityEvent = SecurityEvent(eventType: string, userHash: string, maskedIP: string, details: string)

  /** logger.Security: only the details are cleaned here. */
  function Security(eventType: string, userHash: string, maskedIP: string, details: string): (ev: SecurityEvent)
    ensures '\r' !in ev.details && '\n' !in ev.details
    ensures ev.eventType == eventType && ev.userHash == userHash && ev.maskedIP == maskedIP
  {
    SecurityEvent(eventType, userHash, maskedIP, RemoveCarriageReturns(details))
  }

  function AuthAttempt(username: string, ip: string, success: bool, reason: string,
                       sha256: string -> Digest): (ev: SecurityEvent)
    ensures ev.eventType == "AUTH_SUCCESS" <==> success
    ensures ev.eventType == "AUTH_FAILED" <==> !success
    ensures ev.userHash == HashIdentifier(username, sha256) && ev.maskedIP == MaskIP(ip)
    ensures ev.details == RemoveCarriageReturns(reason)
  {
    var status := if success then "SUCCESS" else "FAILED";
    RemoveCarriageReturnsIdempotent(reason);
    Security("AUTH_" + status, HashIdentifier(username, sha256), MaskIP(ip), RemoveCarriageReturns(reason))
  }

  function AccessDenied(username: string, ip: string, resource: string, reason: string,
                        sha256: string -> Digest): (ev: SecurityEvent)
    ensures ev.eventType == "ACCESS_DENIED" && '\r' !in ev.details && '\n' !in ev.details
    ensures ev.userHash == HashIdentifier(username, sha256) && ev.maskedIP == MaskIP(ip)
  {
    var details := "Resource: " + SanitizeResourcePath(resource) + " | Reason: " + RemoveCarriageReturns(reason);
    Security("ACCESS_DENIED", HashIdentifier(username, sha256), MaskIP(ip), details)
  }

  function AdminAction(username: string, ip: string, action: string, details: string,
                       sha256: string -> Digest): (ev: SecurityEvent)
    ensures ev.eventType == "ADMIN_ACTION" && '\r' !in ev.details && '\n' !in ev.details
    ensures ev.userHash == HashIdentifier(username, sha256) && ev.maskedIP == MaskIP(ip)
  {
    var text := "Action: " + RemoveCarriageReturns(action) + " | Details: " + RemoveCarriageReturns(details);
    Security("ADMIN_ACTION", HashIdentifier(username, sha256), MaskIP(ip), text)
  }

  function ValidationFailure(username: string, ip: string, field: string, reason: string,
                             sha256: string -> Digest): (ev: SecurityEvent)
    ensures ev.eventType == "VALIDATION_FAILURE" && '\r' !in ev.details && '\n' !in ev.details
    ensures ev.userHash == HashIdentifier(username, sha256) && ev.maskedIP == MaskIP(ip)
  {
    var details := "Field: " + RemoveCarriageReturns(field) + " | Reason: " + RemoveCarriageReturns(reason);
    Security("VALIDATION_FAILURE", HashIdentifier(username, sha256), MaskIP(ip), details)
  }

  function DataAccess(username: string, ip: string, resource: string, sha256: string -> Digest): (ev: SecurityEvent)
    ensures ev.eventType == "DATA_ACCESS" && '\r' !in ev.details && '\n' !in ev.details
    ensures ev.userHash == HashIdentifier(username, sha256) && ev.maskedIP == MaskIP(ip)
  {
    Security("DATA_ACCESS", HashIdentifier(username, sha256), MaskIP(ip), "Resource: " + SanitizeResourcePath(resource))
  }

  function SessionCreated(username: string, ip: string, sha256: string -> Digest): (ev: SecurityEvent)
    ensures ev == SecurityEvent("SESSION_CREATED", HashIdentifier(username, sha256), MaskIP(ip), "New session established")
  {
    var text := "New session established";
    assert '\r' !in text && '\n' !in text;
    RemoveCarriageReturnsIsKeepPrintable(text);
    KeepPrintableClean(text);
    Security("SESSION_CREATED", HashIdentifier(username, sha256), MaskIP(ip), "New session established")
  }

  /** An expired session has no address: the IP field reads "system". */
  function SessionExpired(username: string, sha256: string -> Digest): (ev: SecurityEvent)
    ensures ev == SecurityEvent("SESSION_EXPIRED", HashIdentifier(username, sha256), "system", "Session expired")
  {
    var text := "Session expired";
    assert '\r' !in text && '\n' !in text;
    RemoveCarriageReturnsIsKeepPrintable(text);
    KeepPrintableClean(text);
    Security("SESSION_EXPIRED", HashIdentifier(username, sha256), "system", "Session expired")
  }
}
