/**
  The shared annotation conventions of the ingress controller: every annotation key the
  controller reads is a suffix such as `healthcheck-path` placed under one common
  prefix, and values are looked up in the resource's string-to-string annotation map.
*/
module Annotations {
  import opened Wrappers
  import opened Decimal

  /** The common annotation prefix; its value is not fixed by this model. */
  const AnnotationsPrefix: string

  /** The full key of the annotation named `suffix`: prefix, '/', suffix. */
  function WithPrefix(suffix: string): (key: string)
    ensures |key| == |AnnotationsPrefix| + 1 + |suffix|
    ensures key[..|AnnotationsPrefix|] == AnnotationsPrefix
    ensures key[|AnnotationsPrefix| + 1..] == suffix
  {
    AnnotationsPrefix + "/" + suffix
  }

  /** Distinct suffixes give distinct keys, so no two annotations share a key. */
  lemma WithPrefixInjective(a: string, b: string)
    requires WithPrefix(a) == WithPrefix(b)
    ensures a == b
  {
    assert a == WithPrefix(a)[|AnnotationsPrefix| + 1..];
  }

  /** The value of annotation `suffix`, or `None` when the resource does not carry it. */
  function GetString(suffix: string, annotations: map<string, string>): (r: Option<string>)
    ensures r.Some? <==> WithPrefix(suffix) in annotations
    ensures r.Some? ==> r.value == annotations[WithPrefix(suffix)]
  {
    var key := WithPrefix(suffix);
    if key in annotations then Some(annotations[key]) else None
  }

  /** The outcome of reading an integer-valued annotation. */
  datatype IntLookup = Absent | Parsed(n: Int64) | Malformed(raw: string)

  /** Reads annotation `suffix` as a non-negative base-10 integer. */
  function GetInt64(suffix: string, annotations: map<string, string>): (r: IntLookup)
    ensures r.Absent? <==> WithPrefix(suffix) !in annotations
    ensures r.Parsed? ==> ParseInt64(annotations[WithPrefix(suffix)]) == Some(r.n)
    ensures r.Malformed? ==> ParseInt64(annotations[WithPrefix(suffix)]) == None
  {
    match GetString(suffix, annotations)
    case None => Absent
    case Some(raw) =>
      match ParseInt64(raw)
      case Some(n) => Parsed(n)
      case None => Malformed(raw)
  }
}
