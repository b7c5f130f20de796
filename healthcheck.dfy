/**
  Health-check settings of one ingress backend: parsed from the resource's annotations,
  then reconciled against a fallback configuration field by field.
*/
module HealthCheck {
  import opened Wrappers
  import opened Decimal
  import opened Annotations

  /** The health-check settings; every field may be unset (a nil pointer). */
  datatype Config = Config(
    Path: Option<string>,
    Port: Option<string>,
    Protocol: Option<string>,
    IntervalSeconds: Option<Int64>,
    TimeoutSeconds: Option<Int64>)

  /** The part of the controller-wide configuration the merge consults. */
  datatype Configuration = Configuration(DefaultBackendProtocol: string)

  /** An integer annotation is present but is not a non-negative 64-bit decimal. */
  datatype ParseError = MalformedAnnotation(key: string, value: string)

  const DefaultPath: string := "/"
  /** The remaining defaults are package constants whose values this model leaves open. */
  const DefaultPort: string
  const DefaultIntervalSeconds: Int64
  const DefaultTimeoutSeconds: Int64

  /** Annotation names, each read under the shared prefix. */
  const PathAnnotation: string := "healthcheck-path"
  const PortAnnotation: string := "healthcheck-port"
  const ProtocolAnnotation: string := "healthcheck-protocol"
  const IntervalAnnotation: string := "healthcheck-interval-seconds"
  const TimeoutAnnotation: string := "healthcheck-timeout-seconds"
  const HealthCheckAnnotations: set<string> :=
    {PathAnnotation, PortAnnotation, ProtocolAnnotation, IntervalAnnotation, TimeoutAnnotation}

  /** The protocol names a `healthcheck-protocol` annotation may carry. */
  const RecognizedProtocols: set<string> := {"http", "https", "tcp", "udp"}

  /** Every field is set. */
  predicate Populated(c: Config) {
    c.Path.Some? && c.Port.Some? && c.Protocol.Some? && c.IntervalSeconds.Some? && c.TimeoutSeconds.Some?
  }

  /**
    The one place where a source field is judged overridable: it is unset, or it is set
    to its default and so cannot be told apart from a value nobody chose.
  */
  predicate Overridable<T(==)>(field: Option<T>, default: T) {
    field.None? || field == Some(default)
  }

  /** An overridable source field gives way to the target field; any other value is kept. */
  function Pick<T(==)>(source: Option<T>, default: T, target: Option<T>): (r: Option<T>)
    ensures Overridable(source, default) ==> r == target
    ensures !Overridable(source, default) ==> r == source && r.Some?
  {
    if Overridable(source, default) then target else source
  }

  /**
    Reconciles the resource-level `source` with the fallback `target`. Path, port,
    interval and timeout are compared with their package constants; the protocol is
    compared with the default backend protocol of `cfg`. An unset source field is
    resolved from the target too, so a fully set target leaves nothing unset.
  */
  function Merge(source: Config, target: Config, cfg: Configuration): (r: Config)
    ensures r.Path == (if Overridable(source.Path, DefaultPath) then target.Path else source.Path)
    ensures r.Port == (if Overridable(source.Port, DefaultPort) then target.Port else source.Port)
    ensures r.Protocol ==
      (if Overridable(source.Protocol, cfg.DefaultBackendProtocol) then target.Protocol
       else source.Protocol)
    ensures r.IntervalSeconds ==
      (if Overridable(source.IntervalSeconds, DefaultIntervalSeconds) then target.IntervalSeconds
       else source.IntervalSeconds)
    ensures r.TimeoutSeconds ==
      (if Overridable(source.TimeoutSeconds, DefaultTimeoutSeconds) then target.TimeoutSeconds
       else source.TimeoutSeconds)
    ensures Populated(target) ==> Populated(r)
  {
    Config(
      Pick(source.Path, DefaultPath, target.Path),
      Pick(source.Port, DefaultPort, target.Port),
      Pick(source.Protocol, cfg.DefaultBackendProtocol, target.Protocol),
      Pick(source.IntervalSeconds, DefaultIntervalSeconds, target.IntervalSeconds),
      Pick(source.TimeoutSeconds, DefaultTimeoutSeconds, target.TimeoutSeconds))
  }

  /** A source whose every field sits at its default, protocol at `cfg`'s default. */
  function DefaultSource(cfg: Configuration): Config
  {
    Config(Some(DefaultPath), Some(DefaultPort), Some(cfg.DefaultBackendProtocol),
           Some(DefaultIntervalSeconds), Some(DefaultTimeoutSeconds))
  }

  /** Every field of `c` is set away from its default (with `cfg`'s protocol default). */
  predicate Explicit(c: Config, cfg: Configuration) {
    && !Overridable(c.Path, DefaultPath)
    && !Overridable(c.Port, DefaultPort)
    && !Overridable(c.Protocol, cfg.DefaultBackendProtocol)
    && !Overridable(c.IntervalSeconds, DefaultIntervalSeconds)
    && !Overridable(c.TimeoutSeconds, DefaultTimeoutSeconds)
  }

  /** A source with no field at its default comes back unchanged, whatever the target. */
  lemma MergeKeepsExplicitSource(source: Config, target: Config, cfg: Configuration)
    requires Explicit(source, cfg)
    ensures Merge(source, target, cfg) == source
  {
  }

  /** A source entirely at its defaults gives way to the target, whatever the target. */
  lemma MergeDefaultSourceYieldsTarget(target: Config, cfg: Configuration)
    ensures Merge(DefaultSource(cfg), target, cfg) == target
  {
  }

  /** Each result field is the source's or the target's; both inputs set means the result is set. */
  lemma MergeFieldsFromInputs(source: Config, target: Config, cfg: Configuration)
    ensures var r := Merge(source, target, cfg);
      && (r.Path == source.Path || r.Path == target.Path)
      && (r.Port == source.Port || r.Port == target.Port)
      && (r.Protocol == source.Protocol || r.Protocol == target.Protocol)
      && (r.IntervalSeconds == source.IntervalSeconds || r.IntervalSeconds == target.IntervalSeconds)
      && (r.TimeoutSeconds == source.TimeoutSeconds || r.TimeoutSeconds == target.TimeoutSeconds)
    ensures Populated(source) && Populated(target) ==> Populated(Merge(source, target, cfg))
  {
  }

  /** Merging a config with itself changes nothing. */
  lemma MergeWithItself(c: Config, cfg: Configuration)
    ensures Merge(c, c, cfg) == c
  {
  }

  /** Merging an already merged config against the same target again changes nothing. */
  lemma MergeIdempotent(source: Config, target: Config, cfg: Configuration)
    ensures Merge(Merge(source, target, cfg), target, cfg) == Merge(source, target, cfg)
  {
  }

  /** Chains of fallbacks can be resolved in either grouping. */
  lemma MergeAssociative(a: Config, b: Config, c: Config, cfg: Configuration)
    ensures Merge(Merge(a, b, cfg), c, cfg) == Merge(a, Merge(b, c, cfg), cfg)
  {
  }

  /**
    Reads the health-check annotations of one resource. Path and port are taken verbatim
    and default to their constants; the protocol is taken when it is a recognised name and
    is otherwise left unset; interval and timeout are read as base-10 integers, default to
    their constants, and make the whole parse fail when present but malformed (the interval
    is examined first). Keys are looked up only under the shared prefix.
  */
  function Parse(annotations: map<string, string>): (r: Result<Config, ParseError>)
    ensures r.Failure? <==>
      || GetInt64(IntervalAnnotation, annotations).Malformed?
      || GetInt64(TimeoutAnnotation, annotations).Malformed?
    ensures r.Failure? ==>
      var key := if GetInt64(IntervalAnnotation, annotations).Malformed?
                 then WithPrefix(IntervalAnnotation) else WithPrefix(TimeoutAnnotation);
      key in annotations && r.error == MalformedAnnotation(key, annotations[key])
    ensures r.Success? ==>
      var c := r.value;
      && c.Path == Some(if WithPrefix(PathAnnotation) in annotations
                        then annotations[WithPrefix(PathAnnotation)] else DefaultPath)
      && c.Port == Some(if WithPrefix(PortAnnotation) in annotations
                        then annotations[WithPrefix(PortAnnotation)] else DefaultPort)
      && c.Protocol == (if WithPrefix(ProtocolAnnotation) in annotations
                           && annotations[WithPrefix(ProtocolAnnotation)] in RecognizedProtocols
                        then Some(annotations[WithPrefix(ProtocolAnnotation)]) else None)
      && c.IntervalSeconds == (if WithPrefix(IntervalAnnotation) in annotations
                               then ParseInt64(annotations[WithPrefix(IntervalAnnotation)])
                               else Some(DefaultIntervalSeconds))
      && c.TimeoutSeconds == (if WithPrefix(TimeoutAnnotation) in annotations
                              then ParseInt64(annotations[WithPrefix(TimeoutAnnotation)])
                              else Some(DefaultTimeoutSeconds))
  {
    var path := GetString(PathAnnotation, annotations);
    var port := GetString(PortAnnotation, annotations);
    var protocol := GetString(ProtocolAnnotation, annotations);
    var interval := GetInt64(IntervalAnnotation, annotations);
    var timeout := GetInt64(TimeoutAnnotation, annotations);
    if interval.Malformed? then
      Failure(MalformedAnnotation(WithPrefix(IntervalAnnotation), interval.raw))
    else if timeout.Malformed? then
      Failure(MalformedAnnotation(WithPrefix(TimeoutAnnotation), timeout.raw))
    else
      Success(Config(
        Some(if path.Some? then path.value else DefaultPath),
        Some(if port.Some? then port.value else DefaultPort),
        if protocol.Some? && protocol.value in RecognizedProtocols then protocol else None,
        Some(if interval.Parsed? then interval.n else DefaultIntervalSeconds),
        Some(if timeout.Parsed? then timeout.n else DefaultTimeoutSeconds)))
  }

  /** What an ingress without any health-check annotation parses to. */
  function ParsedDefaults(): Config
  {
    Config(Some(DefaultPath), Some(DefaultPort), None,
           Some(DefaultIntervalSeconds), Some(DefaultTimeoutSeconds))
  }

  /** Without health-check annotations every field but the protocol takes its default. */
  lemma ParseWithoutAnnotations()
    ensures Parse(map[]) == Success(ParsedDefaults())
  {
  }

  /** Parse only ever succeeds with path, port, interval and timeout set. */
  lemma ParseSetsFixedFields(annotations: map<string, string>)
    requires Parse(annotations).Success?
    ensures var c := Parse(annotations).value;
      c.Path.Some? && c.Port.Some? && c.IntervalSeconds.Some? && c.TimeoutSeconds.Some?
  {
  }

  /**
    A parsed config merged with a fully set fallback has every field set: the protocol a
    resource leaves unset is resolved from the fallback.
  */
  lemma MergeParsedIsPopulated(annotations: map<string, string>, target: Config, cfg: Configuration)
    requires Parse(annotations).Success? && Populated(target)
    ensures Populated(Merge(Parse(annotations).value, target, cfg))
    ensures WithPrefix(ProtocolAnnotation) !in annotations
      ==> Merge(Parse(annotations).value, target, cfg).Protocol == target.Protocol
  {
  }

  /** Any non-negative 64-bit interval written in decimal is read back as itself. */
  lemma ParseIntervalRoundTrip(n: nat)
    requires n <= MaxInt64
    ensures var r := Parse(map[WithPrefix(IntervalAnnotation) := Format(n)]);
      r.Success? && r.value.IntervalSeconds == Some(n)
  {
    ParseInt64OfFormat(n);
  }

  /** Two annotation maps that agree on `key`: both lack it, or both map it to one value. */
  predicate AgreeOn(a: map<string, string>, b: map<string, string>, key: string) {
    (key in a <==> key in b) && (key in a ==> a[key] == b[key])
  }

  /** Parse reads nothing but the five prefixed health-check keys. */
  lemma ParseReadsOnlyPrefixedKeys(a: map<string, string>, b: map<string, string>)
    requires forall suffix :: suffix in HealthCheckAnnotations ==> AgreeOn(a, b, WithPrefix(suffix))
    ensures Parse(a) == Parse(b)
  {
    assert AgreeOn(a, b, WithPrefix(PathAnnotation));
    assert AgreeOn(a, b, WithPrefix(PortAnnotation));
    assert AgreeOn(a, b, WithPrefix(ProtocolAnnotation));
    assert AgreeOn(a, b, WithPrefix(IntervalAnnotation));
    assert AgreeOn(a, b, WithPrefix(TimeoutAnnotation));
  }

  /** A key with no '/' in it, such as a bare annotation name, is never a prefixed key. */
  lemma UnprefixedKeyIsNotRead(key: string, suffix: string)
    requires forall i :: 0 <= i < |key| ==> key[i] != '/'
    ensures WithPrefix(suffix) != key
  {
    var full := WithPrefix(suffix);
    assert full[|AnnotationsPrefix|] == '/';
  }

  /** Annotations none of whose keys carry the prefix separator leave Parse at its defaults. */
  lemma ParseIgnoresUnprefixedKeys(annotations: map<string, string>)
    requires forall key :: key in annotations ==> '/' !in key
    ensures Parse(annotations) == Success(ParsedDefaults())
  {
    forall suffix | suffix in HealthCheckAnnotations
      ensures AgreeOn(annotations, map[], WithPrefix(suffix))
    {
      var key := WithPrefix(suffix);
      assert key[|AnnotationsPrefix|] == '/';
      assert '/' in key;
    }
    ParseReadsOnlyPrefixedKeys(annotations, map[]);
  }
}
