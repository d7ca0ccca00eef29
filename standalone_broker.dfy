/**
 * The single-file broker: the same registry table and handlers as the
 * route modules (it is modelled by `InstanceRegistry`), its own staleness
 * constant, and the start-up check of the port argument
 * (`parseInt(process.argv[2], 10)`, refused when falsy).
 */
module StandaloneBroker {
  import opened Wrappers
  import opened Js
  import opened Seqs
  import opened InstanceRegistry

  /** The single-file broker's staleness threshold in milliseconds. */
  const STALE_MS: int := 30000

  // ---------------------------------------------------------------------
  // parseInt(arg, 10) and the port check
  // ---------------------------------------------------------------------

  /**
   * The white space `parseInt` skips before the number: the StrWhiteSpaceChar
   * set of ECMAScript, that is tab, line feed, vertical tab, form feed,
   * carriage return, the space separators (category Zs), the byte order
   * mark, and the line and paragraph separators.
   */
  predicate IsSpace(c: char) {
    || c == '\t' || c == '\n' || c == '\U{000B}' || c == '\U{000C}' || c == '\r'
    || c == ' ' || c == '\U{00A0}' || c == '\U{1680}' || '\U{2000}' <= c <= '\U{200A}'
    || c == '\U{2028}' || c == '\U{2029}' || c == '\U{202F}' || c == '\U{205F}' || c == '\U{3000}'
    || c == '\U{FEFF}'
  }

  predicate IsDigit(c: char) {
    '0' <= c <= '9'
  }

  function TrimStart(s: string): (r: string)
    ensures |r| <= |s| && r == s[|s| - |r|..]
    ensures |r| > 0 ==> !IsSpace(r[0])
  {
    if |s| > 0 && IsSpace(s[0]) then TrimStart(s[1..]) else s
  }

  /** The longest prefix of decimal digits. */
  function LeadingDigits(s: string): (r: string)
    ensures |r| <= |s| && r == s[..|r|]
    ensures forall i :: 0 <= i < |r| ==> IsDigit(r[i])
    ensures |r| < |s| ==> !IsDigit(s[|r|])
  {
    if |s| > 0 && IsDigit(s[0]) then [s[0]] + LeadingDigits(s[1..]) else ""
  }

  /** The value of a string of decimal digits, most significant first. */
  function DigitsValue(ds: string): nat
    requires forall i :: 0 <= i < |ds| ==> IsDigit(ds[i])
  {
    if |ds| == 0 then 0
    else
      var last := ds[|ds| - 1];
      assert IsDigit(last);
      DigitsValue(ds[..|ds| - 1]) * 10 + (last as int - '0' as int)
  }

  /** The value of the leading digits, or None when there are none. */
  function ParseDigits(t: string): Option<int> {
    var ds := LeadingDigits(t);
    if |ds| == 0 then None else Some(DigitsValue(ds))
  }

  /** `parseInt(s, 10)`: None stands for NaN (no digit after the optional sign). */
  function ParseIntDecimal(s: string): Option<int> {
    var t := TrimStart(s);
    if |t| > 0 && t[0] == '-' then
      match ParseDigits(t[1..])
      case None => None
      case Some(v) => Some(-v)
    else if |t| > 0 && t[0] == '+' then ParseDigits(t[1..])
    else ParseDigits(t)
  }

  /** The port the broker listens on, or None when it refuses to start (missing, NaN or 0). */
  function StartupPort(arg: Option<string>): (r: Option<int>)
    ensures r.Some? ==> r.value != 0 && arg.Some? && ParseIntDecimal(arg.value) == r
    ensures arg.None? ==> r.None?
    ensures arg.Some? && ParseIntDecimal(arg.value).Some? && ParseIntDecimal(arg.value).value != 0 ==> r == ParseIntDecimal(arg.value)
  {
    match arg
    case None => None
    case Some(a) =>
      match ParseIntDecimal(a)
      case None => None
      case Some(p) => if p == 0 then None else Some(p)
  }

  /** The decimal rendering of a natural number (what a caller passes on the command line). */
  function Decimal(n: nat): (r: string)
    ensures |r| > 0 && forall i :: 0 <= i < |r| ==> IsDigit(r[i])
  {
    if n < 10 then [('0' as int + n) as char]
    else Decimal(n / 10) + [('0' as int + n % 10) as char]
  }

  lemma {:induction false} DecimalValue(n: nat)
    ensures DigitsValue(Decimal(n)) == n
  {
    var d := Decimal(n);
    if n >= 10 {
      assert d[..|d| - 1] == Decimal(n / 10);
      DecimalValue(n / 10);
    }
  }

  /** `parseInt` of digits followed by text that does not start with a digit reads the digits. */
  lemma ParseLeadingDigits(ds: string, junk: string)
    requires |ds| > 0 && forall i :: 0 <= i < |ds| ==> IsDigit(ds[i])
    requires |junk| == 0 || !IsDigit(junk[0])
    ensures ParseIntDecimal(ds + junk) == Some(DigitsValue(ds))
  {
    var s := ds + junk;
    assert s[0] == ds[0] && IsDigit(s[0]);
    assert !IsSpace(s[0]) && s[0] != '-' && s[0] != '+';
    assert TrimStart(s) == s;
    LeadingDigitsPrefix(ds, junk);
    assert LeadingDigits(s) == ds;
    assert ParseDigits(s) == Some(DigitsValue(ds));
    var t := TrimStart(s);
    assert !(|t| > 0 && t[0] == '-') && !(|t| > 0 && t[0] == '+');
    assert ParseIntDecimal(s) == ParseDigits(t);
  }

  /** Any positive port written in decimal is accepted as that port. */
  lemma StartupAcceptsDecimalPort(p: nat)
    requires p > 0
    ensures StartupPort(Some(Decimal(p))) == Some(p)
  {
    var d := Decimal(p);
    assert d + "" == d;
    ParseLeadingDigits(d, "");
    DecimalValue(p);
  }

  /** A missing argument, one without digits, or one that parses to 0 is refused. */
  lemma StartupRefusesFalsyPort(arg: Option<string>)
    requires arg.None? || ParseIntDecimal(arg.value).None? || ParseIntDecimal(arg.value) == Some(0)
    ensures StartupPort(arg).None?
  {
  }

  /** Like `parseInt`, the check reads only the leading digits: trailing text is ignored. */
  lemma StartupIgnoresTrailingText(p: nat, junk: string)
    requires p > 0 && (|junk| == 0 || !IsDigit(junk[0]))
    ensures StartupPort(Some(Decimal(p) + junk)) == Some(p)
  {
    ParseLeadingDigits(Decimal(p), junk);
    DecimalValue(p);
  }

  /** Leading white space of any kind `parseInt` skips is skipped here too. */
  lemma {:induction false} TrimStartSkipsSpace(ws: string, t: string)
    requires forall i :: 0 <= i < |ws| ==> IsSpace(ws[i])
    ensures TrimStart(ws + t) == TrimStart(t)
  {
    if |ws| > 0 {
      assert (ws + t)[0] == ws[0];
      assert (ws + t)[1..] == ws[1..] + t;
      TrimStartSkipsSpace(ws[1..], t);
    } else {
      assert ws + t == t;
    }
  }

  /**
   * A decimal port after leading white space (such as a vertical tab or a
   * no-break space) is accepted as that port.
   */
  lemma StartupSkipsLeadingSpace(ws: string, p: nat)
    requires forall i :: 0 <= i < |ws| ==> IsSpace(ws[i])
    requires p > 0
    ensures StartupPort(Some(ws + Decimal(p))) == Some(p)
  {
    var d := Decimal(p);
    TrimStartSkipsSpace(ws, d);
    assert ParseIntDecimal(ws + d) == ParseIntDecimal(d);
    StartupAcceptsDecimalPort(p);
  }

  /** The argument "\v8080" starts the broker on port 8080. */
  lemma StartupAcceptsVerticalTab()
    ensures StartupPort(Some("\U{000B}8080")) == Some(8080)
  {
    assert Decimal(8080) == "8080" by {
      assert Decimal(8) == "8";
      assert Decimal(80) == "80";
      assert Decimal(808) == "808";
    }
    assert "\U{000B}8080" == "\U{000B}" + Decimal(8080);
    StartupSkipsLeadingSpace("\U{000B}", 8080);
  }

  lemma {:induction false} LeadingDigitsPrefix(ds: string, junk: string)
    requires forall i :: 0 <= i < |ds| ==> IsDigit(ds[i])
    requires |junk| == 0 || !IsDigit(junk[0])
    ensures LeadingDigits(ds + junk) == ds
  {
    if |ds| == 0 {
      assert ds + junk == junk;
    } else {
      assert (ds + junk)[1..] == ds[1..] + junk;
      LeadingDigitsPrefix(ds[1..], junk);
    }
  }

  // ---------------------------------------------------------------------
  // The handlers of the single-file broker, over raw request fields
  // ---------------------------------------------------------------------

  /**
   * `/register` upserts by cwd: afterwards exactly the one entry for cwd is
   * online with the new port and `lastSeen == now`, it was appended with the
   * loopback host if cwd was unknown, and every other entry is unchanged.
   */
  lemma RegisterUpsertsByCwd(s: seq<Instance>, cwd: string, port: int, now: int)
    requires UniqueCwds(s)
    requires cwd != "" && port != 0
    ensures var r := Apply(s, RegisterReq(Some(cwd), Some(port), now));
      && UniqueCwds(r)
      && |r| == (if HasCwd(s, cwd) then |s| else |s| + 1)
      && (exists j :: 0 <= j < |r| && r[j].cwd == cwd && r[j].port == port
                      && r[j].status == Online && r[j].lastSeen == Some(now))
      && (!HasCwd(s, cwd) ==> r[|s|].host == BROKER_HOST)
      && forall j :: 0 <= j < |s| && s[j].cwd != cwd ==> r[j] == s[j]
  {
    RegisterKeepsUnique(s, cwd, port, now);
    var r := Registered(s, cwd, port, now);
    if HasCwd(s, cwd) {
      var k :| 0 <= k < |s| && s[k].cwd == cwd;
      RegisterKnownCwd(s, cwd, port, now, k);
      assert r[k].cwd == cwd && r[k].port == port && r[k].status == Online && r[k].lastSeen == Some(now);
    } else {
      assert r[|s|].cwd == cwd && r[|s|].port == port && r[|s|].status == Online && r[|s|].lastSeen == Some(now);
    }
  }

  /**
   * `/ping` refreshes `lastSeen` on the entry matching both cwd and port
   * and changes nothing else; a port mismatch leaves the table as it was.
   */
  lemma PingRefreshesExactMatch(s: seq<Instance>, cwd: string, port: int, now: int)
    requires UniqueCwds(s)
    requires cwd != "" && port != 0
    ensures var r := Apply(s, PingReq(Some(cwd), Some(port), now));
      |r| == |s|
      && forall j :: 0 <= j < |s| ==>
           r[j] == (if s[j].cwd == cwd && s[j].port == port then s[j].(lastSeen := Some(now)) else s[j])
  {
    match FirstIndex(s, CwdAndPortAre(cwd, port))
    case None =>
      assert forall j :: 0 <= j < |s| ==> !CwdAndPortAre(cwd, port)(s[j]);
    case Some(k) =>
      assert forall j :: 0 <= j < |s| && s[j].cwd == cwd ==> j == k;
  }

  /** `/deregister` marks the cwd's entry offline, keeps it, and the reply lists the whole table. */
  lemma DeregisterKeepsEntry(s: seq<Instance>, cwd: string)
    requires UniqueCwds(s)
    requires cwd != ""
    ensures var r := Apply(s, DeregisterReq(Some(cwd)));
      |r| == |s|
      && (forall j :: 0 <= j < |s| ==> r[j].cwd == s[j].cwd)
      && (forall j :: 0 <= j < |s| && s[j].cwd == cwd ==> r[j].status == Offline && r[j].port == s[j].port)
      && (forall j :: 0 <= j < |s| && s[j].cwd != cwd ==> r[j] == s[j])
  {
    DeregisterMarksOffline(s, cwd);
  }

  /** A request with a falsy cwd, or (for register and ping) a falsy port, changes nothing. */
  lemma FalsyFieldsChangeNothing(s: seq<Instance>, cwd: Option<string>, port: Option<int>, now: int)
    requires !StringTruthy(cwd) || !NumberTruthy(port)
    ensures Apply(s, RegisterReq(cwd, port, now)) == s
    ensures Apply(s, PingReq(cwd, port, now)) == s
    ensures !StringTruthy(cwd) ==> Apply(s, DeregisterReq(cwd)) == s
  {
  }

  /**
   * `GET /instances` sweeps with `STALE_MS` before listing: an entry is
   * listed offline iff it was offline or its truthy `lastSeen` is more than
   * `STALE_MS` old, and no entry is listed online that was not online.
   */
  lemma ListDemotesByStaleMs(s: seq<Instance>, now: int)
    ensures var r := Apply(s, ListReq(now));
      |r| == |s|
      && forall j :: 0 <= j < |s| ==>
           r[j].cwd == s[j].cwd && r[j].port == s[j].port && r[j].lastSeen == s[j].lastSeen
           && (r[j].status == Offline <==>
                 s[j].status == Offline
                 || (s[j].lastSeen.Some? && s[j].lastSeen.value != 0 && now - s[j].lastSeen.value > STALE_MS))
  {
  }
}
