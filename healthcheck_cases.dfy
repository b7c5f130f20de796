/** The scenarios the health-check package's own tests exercise, as lemmas. */
module HealthCheckCases {
  import opened Wrappers
  import opened Decimal
  import opened Annotations
  import opened HealthCheck

  const TcpDefault: Configuration := Configuration("tcp")

  const SourceA: Config := Config(Some("PathA"), Some("PortA"), Some("udp"), Some(42), Some(43))
  const TargetB: Config := Config(Some("PathB"), Some("PortB"), Some("tcp"), Some(52), Some(53))
  const TargetBUdp: Config := Config(Some("PathB"), Some("PortB"), Some("udp"), Some(52), Some(53))

  /**
    An explicit source wins over the target exactly when none of its values happens to
    equal the corresponding package default ("PathA" is not "/" and "udp" is not "tcp").
  */
  lemma MergeExplicitCase()
    ensures Merge(SourceA, TargetB, TcpDefault) == SourceA
      <==> DefaultPort != "PortA" && DefaultIntervalSeconds != 42 && DefaultTimeoutSeconds != 43
  {
    if DefaultPort != "PortA" && DefaultIntervalSeconds != 42 && DefaultTimeoutSeconds != 43 {
      MergeKeepsExplicitSource(SourceA, TargetB, TcpDefault);
    }
  }

  /** A source at its defaults with protocol "tcp", the configured default, yields the target. */
  lemma MergeDefaultCase()
    ensures Merge(Config(Some(DefaultPath), Some(DefaultPort), Some("tcp"),
                         Some(DefaultIntervalSeconds), Some(DefaultTimeoutSeconds)),
                  TargetBUdp, TcpDefault) == TargetBUdp
  {
    MergeDefaultSourceYieldsTarget(TargetBUdp, TcpDefault);
  }

  /** The protocol default is the configured one: the same "tcp" source is kept under a "udp" default. */
  lemma MergeProtocolDefaultIsConfigured()
    ensures Merge(DefaultSource(TcpDefault), TargetBUdp, TcpDefault).Protocol == Some("udp")
    ensures Merge(DefaultSource(TcpDefault), TargetBUdp, Configuration("udp")).Protocol == Some("tcp")
  {
  }

  /** An ingress without a protocol annotation takes the fallback's protocol at merge. */
  lemma MergeResolvesUnsetProtocolCase()
    ensures Merge(ParsedDefaults(), TargetB, TcpDefault).Protocol == Some("tcp")
    ensures Merge(ParsedDefaults(), TargetBUdp, TcpDefault).Protocol == Some("udp")
  {
  }

  /** Only the prefixed interval annotation set to "15": interval 15, path "/". */
  lemma ParseIntervalCase()
    ensures var r := Parse(map[WithPrefix(IntervalAnnotation) := "15"]);
      && r.Success?
      && r.value.IntervalSeconds == Some(15)
      && r.value.Path == Some("/")
  {
    assert Format(15) == "15";
    ParseIntervalRoundTrip(15);
  }

  /** The same annotation without the prefix is not read: everything stays at its default. */
  lemma ParseUnprefixedIntervalCase()
    ensures Parse(map[IntervalAnnotation := "15"]) == Success(ParsedDefaults())
  {
    ParseIgnoresUnprefixedKeys(map[IntervalAnnotation := "15"]);
  }
}
