/**
 The request builder (request/request.go): one ClusterRequest read from the
 process environment, given here as a map from variable name to value.
 */
module Request {
  import opened Wrappers

  const GroupDescriptionVar := "SUBNET_GROUP_DESCRIPTION"
  const GroupNameVar := "SUBNET_GROUP_NAME"
  const EngineVar := "ENGINE"
  const EngineVersionVar := "ENGINE_VERSION"
  const MasterUsernameVar := "MASTER_USERNAME"
  const MasterUserPassVar := "MASTER_USER_PASSWORD"
  const ClusterIdVar := "CLUSTER_ID"
  const AwsRegionVar := "AWS_REGION"
  const AwsProfileVar := "AWS_PROFILE"
  const ReadyTimeoutVar := "READY_TIMEOUT_MINUTES"
  const InstanceIdVar := "INSTANCE_ID"
  const InstanceClassVar := "INSTANCE_CLASS"
  const SgIdsVar := "SECURITY_GROUP_IDS"
  const SubnetsVar := "SUBNETS"

  /** The separator of the two list variables. */
  const Comma: char := ','

  /** The readiness timeout, in minutes, used when the variable does not parse. */
  const DefaultReadyTimeout: int := 1

  datatype ClusterRequest = ClusterRequest(
    region: string,
    profile: string,
    instanceIdentifier: string,
    instanceClass: string,
    clusterId: string,
    engine: string,
    engineVersion: string,
    masterUsername: string,
    masterUserPass: string,
    groupDescription: string,
    groupName: string,
    readyTimeout: int,
    sgIds: seq<string>,
    subnets: seq<string>)

  /** os.Getenv: the variable's value, "" when it is not set. */
  function Getenv(env: map<string, string>, key: string): string {
    if key in env then env[key] else ""
  }

  // ---------------------------------------------------------------------------
  // strings.Split and strings.Join with a one-character separator

  /** strings.Split(s, sep): the pieces between separators, left to right;
      the empty string gives one empty piece. */
  function Split(s: string, sep: char): (parts: seq<string>)
    ensures |parts| >= 1
    decreases |s|
  {
    if |s| == 0 then [""]
    else
      var rest := Split(s[1..], sep);
      if s[0] == sep then [""] + rest
      else [[s[0]] + rest[0]] + rest[1..]
  }

  /** strings.Join(parts, sep). */
  function Join(parts: seq<string>, sep: char): string
    decreases |parts|
  {
    if |parts| == 0 then ""
    else if |parts| == 1 then parts[0]
    else parts[0] + [sep] + Join(parts[1..], sep)
  }

  /** How many times c occurs in s. */
  function Occurrences(s: string, c: char): nat
    decreases |s|
  {
    if |s| == 0 then 0 else (if s[0] == c then 1 else 0) + Occurrences(s[1..], c)
  }

  /** There is one more piece than there are separators. */
  lemma {:induction false} SplitLength(s: string, sep: char)
    ensures |Split(s, sep)| == Occurrences(s, sep) + 1
    decreases |s|
  {
    if |s| > 0 {
      SplitLength(s[1..], sep);
    }
  }

  /** No piece contains the separator. */
  lemma {:induction false} SplitPiecesHaveNoSeparator(s: string, sep: char)
    ensures forall k :: 0 <= k < |Split(s, sep)| ==> sep !in Split(s, sep)[k]
    decreases |s|
  {
    if |s| > 0 {
      SplitPiecesHaveNoSeparator(s[1..], sep);
    }
  }

  /** Joining the pieces with the separator gives back the string. */
  lemma {:induction false} JoinSplit(s: string, sep: char)
    ensures Join(Split(s, sep), sep) == s
    decreases |s|
  {
    if |s| > 0 {
      var rest := Split(s[1..], sep);
      JoinSplit(s[1..], sep);
      if s[0] == sep {
        assert Split(s, sep) == [""] + rest;
        assert Join([""] + rest, sep) == "" + [sep] + Join(rest, sep);
      } else {
        var parts := Split(s, sep);
        assert parts == [[s[0]] + rest[0]] + rest[1..];
        if |rest| == 1 {
          assert Join(parts, sep) == [s[0]] + rest[0];
        } else {
          assert parts[1..] == rest[1..];
          assert Join(parts, sep) == [s[0]] + rest[0] + [sep] + Join(rest[1..], sep);
          assert Join(rest, sep) == rest[0] + [sep] + Join(rest[1..], sep);
        }
        assert s == [s[0]] + s[1..];
      }
    }
  }

  /** Splitting a separator-free prefix glues it to the first piece. */
  lemma {:induction false} SplitPrefix(p: string, t: string, sep: char)
    requires sep !in p
    ensures Split(p + t, sep) == [p + Split(t, sep)[0]] + Split(t, sep)[1..]
    decreases |p|
  {
    if |p| == 0 {
      assert p + t == t;
      assert p + Split(t, sep)[0] == Split(t, sep)[0];
      assert [Split(t, sep)[0]] + Split(t, sep)[1..] == Split(t, sep);
    } else {
      assert (p + t)[1..] == p[1..] + t;
      SplitPrefix(p[1..], t, sep);
      assert [p[0]] + (p[1..] + Split(t, sep)[0]) == p + Split(t, sep)[0];
    }
  }

  /** Splitting pieces joined by the separator gives back the pieces, when
      none of them contains the separator. */
  lemma {:induction false} SplitJoin(parts: seq<string>, sep: char)
    requires |parts| >= 1
    requires forall k :: 0 <= k < |parts| ==> sep !in parts[k]
    ensures Split(Join(parts, sep), sep) == parts
    decreases |parts|
  {
    if |parts| == 1 {
      SplitPrefix(parts[0], "", sep);
      assert parts[0] + "" == parts[0];
    } else {
      var tail := Join(parts[1..], sep);
      SplitJoin(parts[1..], sep);
      assert Join(parts, sep) == parts[0] + ([sep] + tail);
      SplitPrefix(parts[0], [sep] + tail, sep);
      assert ([sep] + tail)[1..] == tail;
      assert Split([sep] + tail, sep) == [""] + parts[1..];
      assert parts[0] + "" == parts[0];
    }
  }

  /** An empty or missing list variable gives one empty id, not an empty list. */
  lemma EmptyListGivesOneEmptyPiece(env: map<string, string>, key: string)
    requires key !in env || env[key] == ""
    ensures Split(Getenv(env, key), Comma) == [""]
  {
  }

  // ---------------------------------------------------------------------------
  // strconv.Atoi on a 64-bit platform

  const MinInt64: int := -0x8000_0000_0000_0000
  const MaxInt64: int := 0x7FFF_FFFF_FFFF_FFFF

  predicate IsDigit(c: char) {
    '0' <= c <= '9'
  }

  predicate AllDigits(s: string) {
    forall i :: 0 <= i < |s| ==> IsDigit(s[i])
  }

  /** The value of a decimal numeral, most significant digit first. */
  function DigitsValue(ds: string): nat
    requires AllDigits(ds)
    decreases |ds|
  {
    if |ds| == 0 then 0
    else DigitsValue(ds[..|ds| - 1]) * 10 + (ds[|ds| - 1] as int - '0' as int)
  }

  /** strconv.Atoi: an optional sign, then one or more decimal digits, whose
      value must fit in an int64; anything else fails. */
  function Atoi(s: string): (r: Option<int>)
    ensures r.Some? ==> MinInt64 <= r.value <= MaxInt64
    ensures r.Some? ==> 0 < |s|
  {
    var signed := 0 < |s| && (s[0] == '+' || s[0] == '-');
    var digits := if signed then s[1..] else s;
    if |digits| == 0 || !AllDigits(digits) then None
    else
      var magnitude: int := DigitsValue(digits);
      var v := if signed && s[0] == '-' then -magnitude else magnitude;
      if MinInt64 <= v <= MaxInt64 then Some(v) else None
  }

  function DigitChar(d: nat): char
    requires d < 10
  {
    ('0' as int + d) as char
  }

  /** The shortest decimal numeral of n. */
  function NatDigits(n: nat): (ds: string)
    ensures 0 < |ds| && AllDigits(ds)
    decreases n
  {
    if n < 10 then [DigitChar(n)] else NatDigits(n / 10) + [DigitChar(n % 10)]
  }

  /** strconv.Itoa: the partner Atoi inverts. */
  function Itoa(n: int): string {
    if n < 0 then "-" + NatDigits(-n) else NatDigits(n)
  }

  lemma {:induction false} NatDigitsValue(n: nat)
    ensures DigitsValue(NatDigits(n)) == n
    decreases n
  {
    if n >= 10 {
      var ds := NatDigits(n);
      NatDigitsValue(n / 10);
      assert ds[..|ds| - 1] == NatDigits(n / 10);
    }
  }

  /** Every int64 written out in decimal parses back to itself. */
  lemma AtoiItoa(n: int)
    requires MinInt64 <= n <= MaxInt64
    ensures Atoi(Itoa(n)) == Some(n)
  {
    var s := Itoa(n);
    if n < 0 {
      var ds := NatDigits(-n);
      NatDigitsValue(-n);
      assert s == "-" + ds && s[0] == '-' && s[1..] == ds;
    } else {
      var ds := NatDigits(n);
      NatDigitsValue(n);
      assert s == ds && IsDigit(s[0]);
    }
  }

  /** A character other than a digit after the optional sign makes Atoi fail. */
  lemma AtoiRejectsNonDigit(s: string, i: nat)
    requires i < |s| && !IsDigit(s[i])
    requires i > 0 || (s[0] != '+' && s[0] != '-')
    ensures Atoi(s) == None
  {
    var signed := 0 < |s| && (s[0] == '+' || s[0] == '-');
    var digits := if signed then s[1..] else s;
    var k := if signed then i - 1 else i;
    assert digits[k] == s[i];
  }

  // ---------------------------------------------------------------------------

  /** NewRequest: every string field is the variable's value ("" when unset);
      the two lists are the comma-split of their variables; the timeout is
      the parsed value, or 1 when it does not parse. */
  method NewRequest(env: map<string, string>) returns (req: ClusterRequest)
    ensures req.region == Getenv(env, AwsRegionVar)
    ensures req.profile == Getenv(env, AwsProfileVar)
    ensures req.instanceIdentifier == Getenv(env, InstanceIdVar)
    ensures req.instanceClass == Getenv(env, InstanceClassVar)
    ensures req.clusterId == Getenv(env, ClusterIdVar)
    ensures req.engine == Getenv(env, EngineVar)
    ensures req.engineVersion == Getenv(env, EngineVersionVar)
    ensures req.masterUsername == Getenv(env, MasterUsernameVar)
    ensures req.masterUserPass == Getenv(env, MasterUserPassVar)
    ensures req.groupDescription == Getenv(env, GroupDescriptionVar)
    ensures req.groupName == Getenv(env, GroupNameVar)
    ensures req.sgIds == Split(Getenv(env, SgIdsVar), Comma)
    ensures req.subnets == Split(Getenv(env, SubnetsVar), Comma)
    ensures |req.sgIds| == Occurrences(Getenv(env, SgIdsVar), Comma) + 1
    ensures |req.subnets| == Occurrences(Getenv(env, SubnetsVar), Comma) + 1
    ensures Join(req.sgIds, Comma) == Getenv(env, SgIdsVar)
    ensures Join(req.subnets, Comma) == Getenv(env, SubnetsVar)
    ensures var t := Atoi(Getenv(env, ReadyTimeoutVar));
            req.readyTimeout == (if t.Some? then t.value else DefaultReadyTimeout)
  {
    req := ClusterRequest("", "", "", "", "", "", "", "", "", "", "", 0, [], []);
    req := req.(region := Getenv(env, AwsRegionVar));
    req := req.(profile := Getenv(env, AwsProfileVar));
    req := req.(instanceIdentifier := Getenv(env, InstanceIdVar));
    req := req.(instanceClass := Getenv(env, InstanceClassVar));
    req := req.(clusterId := Getenv(env, ClusterIdVar));
    req := req.(engine := Getenv(env, EngineVar));
    req := req.(engineVersion := Getenv(env, EngineVersionVar));
    req := req.(masterUsername := Getenv(env, MasterUsernameVar));
    req := req.(masterUserPass := Getenv(env, MasterUserPassVar));
    req := req.(groupDescription := Getenv(env, GroupDescriptionVar));
    req := req.(groupName := Getenv(env, GroupNameVar));

    var readyTimeout := Getenv(env, ReadyTimeoutVar);

    var sgIds: seq<string> := [];
    var subnets: seq<string> := [];

    var sgParts := Split(Getenv(env, SgIdsVar), Comma);
    for i := 0 to |sgParts|
      invariant sgIds == sgParts[..i]
    {
      sgIds := sgIds + [sgParts[i]];
    }
    var subnetParts := Split(Getenv(env, SubnetsVar), Comma);
    for i := 0 to |subnetParts|
      invariant subnets == subnetParts[..i]
    {
      subnets := subnets + [subnetParts[i]];
    }
    assert sgIds == sgParts && subnets == subnetParts;
    SplitLength(Getenv(env, SgIdsVar), Comma);
    SplitLength(Getenv(env, SubnetsVar), Comma);
    JoinSplit(Getenv(env, SgIdsVar), Comma);
    JoinSplit(Getenv(env, SubnetsVar), Comma);

    req := req.(sgIds := sgIds, subnets := subnets);

    var rTimeout: int;
    var parsed := Atoi(readyTimeout);
    match parsed {
      case Some(v) =>
        rTimeout := v;
      case None =>
        rTimeout := DefaultReadyTimeout;
    }
    req := req.(readyTimeout := rTimeout);
  }
}
