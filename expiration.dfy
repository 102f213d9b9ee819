/** Cache::setExpiration and Cache::is_expired: turning the caller's expiration argument into an
    absolute Unix timestamp, and deciding staleness against the time captured at construction. */
module Expiration {
  import opened Outcomes
  import opened Decimal
  import opened PhpValue

  /** strtotime($text, $base): a timestamp, or None where PHP returns false. The date grammar is
      not modelled; every use takes the parser as a parameter. */
  type DateParser = (string, int) -> Option<int>

  const OneDay: nat := 86400

  /** is_expired: no expiration (a falsy one) or one strictly before `now`. */
  predicate Expired(expiration: Value, now: int)
    ensures !Truthy(expiration) ==> Expired(expiration, now)
    ensures IsNumeric(expiration) && NumericValue(expiration) > 0 ==>
      (Expired(expiration, now) <==> NumericValue(expiration) < now)
  {
    ZeroText();
    !Truthy(expiration) || LessThanInt(expiration, now)
  }

  /** setExpiration as its documentation states it: a numeric argument after `now` is kept;
      otherwise the argument is parsed as a date relative to `now`, and a failed parse, a zero or a
      time before `now` falls back to one day from `now`. */
  function Resolve(arg: Value, now: nat, strtotime: DateParser): (r: Value)
    ensures !Expired(r, now)
    ensures IsNumeric(r) && NumericValue(r) >= now
    ensures IsNumeric(arg) && NumericValue(arg) > now ==> r == arg
    ensures !(IsNumeric(arg) && NumericValue(arg) > now) ==> r.Int?
    ensures !(IsNumeric(arg) && NumericValue(arg) > now) ==>
      var p := strtotime(ToPhpString(arg), now);
      (p.Some? && p.value != 0 && p.value >= now ==> r == Int(p.value)) &&
      (p.None? || p.value == 0 || p.value < now ==> r == Int(now + OneDay))
  {
    if IsNumeric(arg) && NumericValue(arg) > now then ZeroText(); arg
    else
      match strtotime(ToPhpString(arg), now)
      case Some(t) => if t != 0 && t >= now then Int(t) else Int(now + OneDay)
      case None => Int(now + OneDay)
  }

  lemma ZeroText()
    ensures LeadingInt("0") == 0
  {
    assert SpanDigits("0") == 1;
  }

  /** setExpiration as the source writes it: the parameter is spelled `$expriation` while the body
      reads `$expiration`, an undefined variable that PHP evaluates to null. */
  function ResolveAsWritten(arg: Value, now: nat, strtotime: DateParser): Value
  {
    Resolve(Null, now, strtotime)
  }

  /** With no expiration given, the entry lives one day (strtotime("") is false). */
  lemma DefaultIsOneDay(now: nat, strtotime: DateParser)
    requires strtotime("", now) == None
    ensures Resolve(Null, now, strtotime) == Int(now + OneDay)
  {
  }

  /** An argument that is not a future timestamp goes through strtotime, and a parsed date is
      used when it is not in the past. */
  lemma ParsedDateIsUsed(arg: Value, now: nat, strtotime: DateParser, t: int)
    requires !(IsNumeric(arg) && NumericValue(arg) > now)
    requires strtotime(ToPhpString(arg), now) == Some(t) && t >= now && t != 0
    ensures Resolve(arg, now, strtotime) == Int(t)
  {
  }

  /** An argument that is not a future timestamp and that strtotime cannot parse, or parses to 0
      or to a time before now, gives one day from now. */
  lemma FailedParseIsOneDay(arg: Value, now: nat, strtotime: DateParser)
    requires !(IsNumeric(arg) && NumericValue(arg) > now)
    requires var p := strtotime(ToPhpString(arg), now); p.None? || p.value == 0 || p.value < now
    ensures Resolve(arg, now, strtotime) == Int(now + OneDay)
  {
  }

  /** As written, every argument gives one day from now. */
  lemma AsWrittenIgnoresArgument(arg: Value, now: nat, strtotime: DateParser)
    requires strtotime("", now) == None
    ensures ResolveAsWritten(arg, now, strtotime) == Int(now + OneDay)
  {
  }

  /** A timestamp one hour ahead is kept by the documented rule and lost as written. */
  lemma AsWrittenLosesTimestamp(now: nat, strtotime: DateParser)
    requires strtotime("", now) == None
    ensures Resolve(Int(now + 3600), now, strtotime) == Int(now + 3600)
    ensures ResolveAsWritten(Int(now + 3600), now, strtotime) != Resolve(Int(now + 3600), now, strtotime)
  {
  }

  /** Staleness of an integer expiration: expired exactly when it is 0 or before `now`; an
      expiration equal to `now` is still fresh. */
  lemma ExpiredInt(e: int, now: int)
    ensures Expired(Int(e), now) <==> e == 0 || e < now
  {
  }

  /** A missing expiration is always expired. */
  lemma ExpiredUnset(now: int)
    ensures Expired(Null, now) && Expired(Int(0), now) && Expired(Str(""), now)
  {
  }

  /** An expiration read back as its decimal text is stale exactly when the int was. */
  lemma ExpiredPrinted(e: int, now: int)
    ensures Expired(Str(IntToString(e)), now) <==> Expired(Int(e), now)
  {
    LeadingIntOfString(e);
    if IntToString(e) == "0" {
      assert LeadingInt("0") == 0;
    }
  }
}
