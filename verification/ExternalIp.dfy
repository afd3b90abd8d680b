/** `GetExternalIP` and the check it applies to what a lookup service answers. */
module ExternalIp {
  import opened GoStrings
  import opened Wrappers

  // ---- isValidIP ----

  predicate IsDottedPart(part: string) {
    1 <= |part| <= 3 && AllDigits(part)
  }

  predicate IsDottedQuad(ip: string) {
    var parts := Split(ip, '.');
    |parts| == 4 && forall k :: 0 <= k < 4 ==> IsDottedPart(parts[k])
  }

  method IsValidIP(ip: string) returns (valid: bool)
    ensures valid <==> IsDottedQuad(ip)
  {
    var parts := Split(ip, '.');
    if |parts| != 4 {
      return false;
    }
    for i := 0 to |parts|
      invariant forall k :: 0 <= k < i ==> IsDottedPart(parts[k])
    {
      var part := parts[i];
      if |part| == 0 || |part| > 3 {
        return false;
      }
      for j := 0 to |part|
        invariant forall k :: 0 <= k < j ==> IsDigit(part[k])
      {
        if part[j] < '0' || part[j] > '9' {
          assert !IsDigit(part[j]);
          return false;
        }
      }
    }
    return true;
  }

  function Quad(a: string, b: string, c: string, d: string): string {
    a + "." + b + "." + c + "." + d
  }

  lemma SplitQuad(a: string, b: string, c: string, d: string)
    requires '.' !in a && '.' !in b && '.' !in c && '.' !in d
    ensures Split(Quad(a, b, c, d), '.') == [a, b, c, d]
  {
    JoinQuad(a, b, c, d);
    SplitJoin([a, b, c, d], '.');
  }

  lemma JoinQuad(a: string, b: string, c: string, d: string)
    ensures Join([a, b, c, d], '.') == Quad(a, b, c, d)
  {
    assert [a, b, c, d][1..] == [b, c, d];
    assert [b, c, d][1..] == [c, d];
    assert [c, d][1..] == [d];
    assert Join([c, d], '.') == c + ['.'] + d;
    assert Join([b, c, d], '.') == b + ['.'] + (c + ['.'] + d);
    assert a + ['.'] + (b + ['.'] + (c + ['.'] + d)) == Quad(a, b, c, d);
  }

  lemma QuadSplit(ip: string)
    requires |Split(ip, '.')| == 4
    ensures var parts := Split(ip, '.'); ip == Quad(parts[0], parts[1], parts[2], parts[3])
  {
    var parts := Split(ip, '.');
    JoinSplit(ip, '.');
    JoinQuad(parts[0], parts[1], parts[2], parts[3]);
    assert parts == [parts[0], parts[1], parts[2], parts[3]];
  }

  /** The accepted strings, generated: four groups of one to three digits joined by dots. */
  ghost predicate IsFourGroups(ip: string, a: string, b: string, c: string, d: string) {
    IsDottedPart(a) && IsDottedPart(b) && IsDottedPart(c) && IsDottedPart(d) && ip == Quad(a, b, c, d)
  }

  /** Recogniser and generator agree, and the groups are the parts of the string. */
  lemma AcceptsFourGroups(ip: string, a: string, b: string, c: string, d: string)
    ensures IsFourGroups(ip, a, b, c, d) <==> IsDottedQuad(ip) && Split(ip, '.') == [a, b, c, d]
    ensures IsFourGroups(ip, a, b, c, d) ==> 7 <= |ip| <= 15
  {
    if IsFourGroups(ip, a, b, c, d) {
      SplitQuad(a, b, c, d);
    } else if |Split(ip, '.')| == 4 {
      QuadSplit(ip);
    }
  }

  // ---- Section 3.2.2 of RFC 3986 ----

  /** dec-octet: 0 to 255 without leading zeros. */
  predicate IsDecOctet(part: string) {
    || (|part| == 1 && IsDigit(part[0]))
    || (|part| == 2 && '1' <= part[0] <= '9' && IsDigit(part[1]))
    || (|part| == 3 && part[0] == '1' && IsDigit(part[1]) && IsDigit(part[2]))
    || (|part| == 3 && part[0] == '2' && '0' <= part[1] <= '4' && IsDigit(part[2]))
    || (|part| == 3 && part[0] == '2' && part[1] == '5' && '0' <= part[2] <= '5')
  }

  ghost predicate IsIPv4Address(ip: string) {
    exists a, b, c, d :: IsDecOctet(a) && IsDecOctet(b) && IsDecOctet(c) && IsDecOctet(d) && ip == Quad(a, b, c, d)
  }

  /** What the check does not look at. */
  predicate InRange(part: string) {
    AllDigits(part) && DigitsValue(part) <= 255 && (|part| == 1 || (part != "" && part[0] != '0'))
  }

  lemma DecOctetByValue(part: string)
    ensures IsDecOctet(part) <==> IsDottedPart(part) && InRange(part)
  {
    if IsDottedPart(part) {
      DigitValue(part[0]);
      if |part| >= 2 {
        DigitsSnoc([part[0]], part[1]);
        assert part[..2] == [part[0]] + [part[1]];
      }
      if |part| == 2 {
        assert part == part[..2];
      }
      if |part| == 3 {
        DigitsSnoc(part[..2], part[2]);
        assert part == part[..2] + [part[2]];
      }
    }
  }

  ghost predicate AllInRange(ip: string) {
    forall k :: 0 <= k < |Split(ip, '.')| ==> InRange(Split(ip, '.')[k])
  }

  lemma AddressIsAccepted(ip: string, a: string, b: string, c: string, d: string)
    requires IsDecOctet(a) && IsDecOctet(b) && IsDecOctet(c) && IsDecOctet(d) && ip == Quad(a, b, c, d)
    ensures IsDottedQuad(ip) && AllInRange(ip)
  {
    DecOctetByValue(a);
    DecOctetByValue(b);
    DecOctetByValue(c);
    DecOctetByValue(d);
    SplitQuad(a, b, c, d);
  }

  /**
   Every address of the RFC is accepted, and an accepted string is an address exactly when no group
   has a leading zero or exceeds 255.
   */
  lemma AddressesAmongAccepted(ip: string)
    ensures IsIPv4Address(ip) <==> IsDottedQuad(ip) && AllInRange(ip)
  {
    if IsIPv4Address(ip) {
      var a, b, c, d :| IsDecOctet(a) && IsDecOctet(b) && IsDecOctet(c) && IsDecOctet(d) && ip == Quad(a, b, c, d);
      AddressIsAccepted(ip, a, b, c, d);
    }
    if IsDottedQuad(ip) && AllInRange(ip) {
      QuadSplit(ip);
      var parts := Split(ip, '.');
      DecOctetByValue(parts[0]);
      DecOctetByValue(parts[1]);
      DecOctetByValue(parts[2]);
      DecOctetByValue(parts[3]);
    }
  }

  // ---- GetExternalIP ----

  /** What asking one service comes to. */
  datatype Reply = Unreachable(error: string) | BadStatus(status: string) | Unreadable(error: string)
      | Body(text: string)

  function Attempt(reply: Reply): Result<string, string> {
    match reply
    case Unreachable(error) => Failure(error)
    case BadStatus(status) => Failure("HTTP " + status)
    case Unreadable(error) => Failure(error)
    case Body(text) =>
      var ip := TrimSpace(text);
      if ip != "" && IsDottedQuad(ip) then Success(ip) else Failure("invalid IP format: " + ip)
  }

  /** The service answers, and its text is this dotted quad with white space around it. */
  ghost predicate Answers(reply: Reply, ip: string) {
    reply.Body? && IsDottedQuad(ip) && IsTrimmed(reply.text, ip)
  }

  ghost predicate AnswersNothing(reply: Reply) {
    forall ip :: !Answers(reply, ip)
  }

  lemma AnswerIsAccepted(reply: Reply, ip: string)
    ensures Attempt(reply) == Success(ip) <==> Answers(reply, ip)
  {
    if reply.Body? {
      TrimSpaceExactly(reply.text, ip);
    }
  }

  lemma NothingIsAccepted(reply: Reply)
    ensures Attempt(reply).Failure? <==> AnswersNothing(reply)
  {
    forall ip ensures Attempt(reply) == Success(ip) <==> Answers(reply, ip) {
      AnswerIsAccepted(reply, ip);
    }
    if Attempt(reply).Success? {
      assert Answers(reply, Attempt(reply).value);
    }
  }

  /** The first service with an acceptable answer decides; if none has one, the last failure is reported. */
  method GetExternalIP(replies: seq<Reply>) returns (r: Result<string, Option<string>>)
    ensures r.Success? ==> exists i :: 0 <= i < |replies| && Answers(replies[i], r.value)
                             && forall j :: 0 <= j < i ==> AnswersNothing(replies[j])
    ensures r.Failure? ==> forall i :: 0 <= i < |replies| ==> AnswersNothing(replies[i])
    ensures r.Failure? ==>
              if replies == [] then r.error == None
              else r.error.Some? && Attempt(replies[|replies| - 1]) == Failure(r.error.value)
  {
    var lastErr: Option<string> := None;
    for i := 0 to |replies|
      invariant forall j :: 0 <= j < i ==> Attempt(replies[j]).Failure? && AnswersNothing(replies[j])
      invariant lastErr == if i == 0 then None else Some(Attempt(replies[i - 1]).error)
    {
      var answer := Ask(replies[i]);
      NothingIsAccepted(replies[i]);
      match answer {
        case Success(ip) =>
          AnswerIsAccepted(replies[i], ip);
          return Success(ip);
        case Failure(error) => lastErr := Some(error);
      }
    }
    return Failure(lastErr);
  }

  /** One turn of the loop. */
  method Ask(reply: Reply) returns (r: Result<string, string>)
    ensures r == Attempt(reply) && (r.Success? ==> IsDottedQuad(r.value))
  {
    match reply {
      case Unreachable(error) => return Failure(error);
      case BadStatus(status) => return Failure("HTTP " + status);
      case Unreadable(error) => return Failure(error);
      case Body(text) =>
        var ip := TrimSpace(text);
        if ip != "" {
          var valid := IsValidIP(ip);
          if valid {
            return Success(ip);
          }
        }
        return Failure("invalid IP format: " + ip);
    }
  }
}
