# Health-check annotations of the ALB ingress controller

This project models the `healthcheck` annotation package of the AWS ALB ingress
controller. An ingress resource carries string annotations such as
`<prefix>/healthcheck-interval-seconds`. The package turns them into a health-check
`Config` with five optional fields: `Path`, `Port`, `Protocol`, `IntervalSeconds` and
`TimeoutSeconds`. It then reconciles that resource-level config (the *source*) with a
fallback config (the *target*) by `Merge`. In the merge, a source field that still
is unset, or equals its default, gives way to the target field. For `Protocol` the default is the
`DefaultBackendProtocol` of the controller configuration passed to the call. For the
other four fields it is a package constant.

Modules:

- `Wrappers` (`wrappers.dfy`): `Option`, which stands for Go's nil-able pointers compared by value, and `Result`.
- `Decimal` (`decimal.dfy`): base-10 reading and writing of non-negative 64-bit integers.
- `Annotations` (`annotations.dfy`): the shared key prefix and the string and integer annotation lookups.
- `HealthCheck` (`healthcheck.dfy`): `Config`, the default constants, `Merge`, `Parse` and their properties.
- `HealthCheckCases` (`healthcheck_cases.dfy`): the package tests' scenarios, stated as lemmas.

Decisions where the package's tests leave the behaviour open:

- The package's implementation file and the `parser` package are not part of this model. The model's behaviour is pinned by the package's tests wherever they reach.
- `DefaultPath` is `"/"`, the only value the tests pin. `DefaultPort`, `DefaultIntervalSeconds`, `DefaultTimeoutSeconds` and `AnnotationsPrefix` are constants whose values are left open. Every lemma holds whatever they are.
- The test with all fields explicit expects the source back. That holds exactly when the open defaults differ from `"PortA"`, `42` and `43`. `HealthCheckCases.MergeExplicitCase` states this as an if-and-only-if.
- A source field gives way when it is set to its default, and also when it is unset. So a protocol the annotations leave unset is resolved from the fallback at merge time. A fully set fallback therefore yields a fully set result.
- Annotation keys are `prefix + "/" + name`.
- `Parse` takes path and port verbatim. Otherwise they get their defaults.
- `Parse` keeps a protocol only if it is one of `http`, `https`, `tcp` or `udp`. Otherwise `Protocol` stays unset.
- `Parse` reads interval and timeout as non-negative integers written in plain decimal digits, at most 2^63 - 1. A present value of any other form fails the whole parse with `MalformedAnnotation`. The interval is checked first. The tests do not pin this error path.

## Model

| member | source | states |
|---|---|---|
| `HealthCheck.Merge` | internal/ingress/annotations/healthcheck/main_test.go:95-157 | per field, the target value when the source value is unset or equals its default (the constant for path, port, interval, timeout; the passed configuration's default backend protocol for protocol), otherwise the source value; a fully set target gives a fully set result |
| `HealthCheck.MergeKeepsExplicitSource` | internal/ingress/annotations/healthcheck/main_test.go:102-127 | a source none of whose fields equals its default is returned unchanged, whatever the target |
| `HealthCheck.MergeDefaultSourceYieldsTarget` | internal/ingress/annotations/healthcheck/main_test.go:128-153 | a source with every field at its default (protocol at the configured default) yields exactly the target |
| `HealthCheck.MergeFieldsFromInputs` | internal/ingress/annotations/healthcheck/main_test.go:146-156 | every result field is the source's or the target's; if both inputs have all five fields set, so does the result |
| `HealthCheck.MergeWithItself` | internal/ingress/annotations/healthcheck/main_test.go:155 | merging a config with itself returns it |
| `HealthCheck.MergeIdempotent` | internal/ingress/annotations/healthcheck/main_test.go:155 | merging a merge result again against the same target changes nothing, for all inputs |
| `HealthCheck.MergeAssociative` | internal/ingress/annotations/healthcheck/main_test.go:155 | `Merge(Merge(a, b), c) == Merge(a, Merge(b, c))` under one configuration |
| `HealthCheck.MergeParsedIsPopulated` | internal/ingress/annotations/healthcheck/main_test.go:80-156 | a successful parse merged with a fully set target has every field set; without a protocol annotation the result takes the target's protocol |
| `HealthCheck.Parse` | internal/ingress/annotations/healthcheck/main_test.go:76-92 | fails exactly when the interval or timeout annotation is present and not a 64-bit decimal, naming that key; otherwise path and port are the prefixed annotations or their defaults, protocol the annotation if recognised, interval and timeout the decimal value of the annotation or their defaults |
| `HealthCheck.ParseWithoutAnnotations` | internal/ingress/annotations/healthcheck/main_test.go:90-91 | with no annotations, path is `"/"`, port, interval and timeout are their defaults, protocol is unset |
| `HealthCheck.ParseSetsFixedFields` | internal/ingress/annotations/healthcheck/main_test.go:80-90 | a successful parse has path, port, interval and timeout set, so they can be dereferenced |
| `HealthCheck.ParseIntervalRoundTrip` | internal/ingress/annotations/healthcheck/main_test.go:76-88 | a prefixed interval annotation holding the decimal spelling of any n up to 2^63 - 1 parses to interval n |
| `HealthCheck.ParseReadsOnlyPrefixedKeys` | internal/ingress/annotations/healthcheck/main_test.go:77 | two annotation maps that agree on the five prefixed health-check keys parse alike |
| `HealthCheck.UnprefixedKeyIsNotRead` | internal/ingress/annotations/healthcheck/main_test.go:77 | a key without a '/' is never a prefixed annotation key |
| `HealthCheck.ParseIgnoresUnprefixedKeys` | internal/ingress/annotations/healthcheck/main_test.go:77 | annotations whose keys carry no prefix separator parse to the all-defaults config |
| `Annotations.WithPrefixInjective` | internal/ingress/annotations/healthcheck/main_test.go:77 | distinct annotation names give distinct prefixed keys |
| `Annotations.GetInt64` | internal/ingress/annotations/healthcheck/main_test.go:77-86 | an integer annotation is absent exactly when its prefixed key is missing, parsed when its value is a 64-bit decimal, malformed otherwise |
| `Decimal.ValueOfFormat` | internal/ingress/annotations/healthcheck/main_test.go:77-86 | reading the decimal spelling of n gives n |
| `Decimal.FormatOfValue` | internal/ingress/annotations/healthcheck/main_test.go:77-86 | a digit string without a leading zero is the spelling of its own value |
| `Decimal.ParseInt64OfFormat` | internal/ingress/annotations/healthcheck/main_test.go:77-86 | every n in 0..2^63 - 1 survives a format-then-parse round trip |
| `HealthCheckCases.MergeExplicitCase` | internal/ingress/annotations/healthcheck/main_test.go:102-127 | the all-explicit test case returns the source exactly when the open defaults differ from "PortA", 42 and 43 |
| `HealthCheckCases.MergeDefaultCase` | internal/ingress/annotations/healthcheck/main_test.go:128-153 | the all-default test case, protocol "tcp" under default "tcp", returns the target |
| `HealthCheckCases.MergeProtocolDefaultIsConfigured` | internal/ingress/annotations/healthcheck/main_test.go:132-149 | source protocol "tcp" gives way under configured default "tcp" but is kept under default "udp" |
| `HealthCheckCases.MergeResolvesUnsetProtocolCase` | internal/ingress/annotations/healthcheck/main_test.go:110-152 | an ingress without annotations, merged with either test target under default "tcp", takes that target's protocol |
| `HealthCheckCases.ParseIntervalCase` | internal/ingress/annotations/healthcheck/main_test.go:76-92 | the prefixed interval annotation "15" alone parses to interval 15 and path "/" |
| `HealthCheckCases.ParseUnprefixedIntervalCase` | internal/ingress/annotations/healthcheck/main_test.go:77 | the same annotation without the prefix is not read, so every field stays at its default |

## Left out

- The resolver capability is not modelled. Parse behaves as with the tests' stand-in resolver, which finds no backend, so only constant defaults are used.
- Building the Kubernetes ingress object is not modelled. Only its annotation map is an input.
- The `aws.String` and `aws.Int64` pointer helpers are modelled as `Option` values compared by value. Pointer identity and aliasing are not captured.
- A nil target or nil configuration passed to Merge cannot occur, because Dafny datatypes have no null.
- `HealthCheck.Parse`: a leading `+` or `-` sign on an integer annotation is rejected, because integer annotations are read as non-negative. Go's `strconv.ParseInt` would accept a sign.
- main.go is the process bootstrap: environment variables, logging, the metrics HTTP server and the controller lifecycle. It is I/O and concurrency and is not part of this model.
