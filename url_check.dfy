/// `check_url`: the scheme-prefix test, the sentinel values it returns, and
/// the three-way result its callers decode from one `double`.
module UrlCheck {

  /** The prefix every URL must start with (`URL_PREFIX`). */
  const UrlPrefix: string := "http"
  /** The sentinel returned when the probe did not produce a time (`URL_UNKNOWN`). */
  const UrlUnknown: real := -1.0
  /** The sentinel returned for a URL without the prefix (`URL_ERROR`). */
  const UrlError: real := -2.0

  const Nul: char := '\0'

  /** What a URL probe means to the checkers. */
  datatype Classification = Latency(seconds: real) | Unknown | Invalid

  /** The outcome of the network probe, which is not modelled: either no
      time was obtained (no handle, or the request failed) or the request
      completed and reported its name-lookup time. */
  datatype Probe = ProbeFailed | ProbeCompleted(nameLookup: real)

  /** A completed probe reports a non-negative time. */
  predicate ValidProbe(p: Probe)
  {
    p.ProbeCompleted? ==> p.nameLookup >= 0.0
  }

  predicate ValidClassification(c: Classification)
  {
    c.Latency? ==> c.seconds >= 0.0
  }

  /** A C string: no NUL character before its end. */
  predicate IsCString(s: string)
  {
    Nul !in s
  }

  /** The character at `i`, reading past the end as the terminating NUL. */
  function CharAt(s: string, i: nat): char
  {
    if i < |s| then s[i] else Nul
  }

  function Rest(s: string): string
  {
    if s == [] then [] else s[1..]
  }

  /** `strncmp(a, b, k) == 0`: the first `k` characters agree, where a
      comparison ends early at a NUL both strings share. */
  function StrnEqual(a: string, b: string, k: nat): (r: bool)
    ensures k == 0 ==> r
    ensures k > 0 && CharAt(a, 0) != CharAt(b, 0) ==> !r
    ensures a == b ==> r
    decreases k
  {
    k == 0 ||
    (CharAt(a, 0) == CharAt(b, 0) && (CharAt(a, 0) == Nul || StrnEqual(Rest(a), Rest(b), k - 1)))
  }

  /** For C strings, comparing the first `|b|` characters with `strncmp`
      succeeds exactly when `b` is a prefix of `a`. */
  lemma {:induction false} StrnEqualIsPrefix(a: string, b: string)
    requires IsCString(a) && IsCString(b)
    ensures StrnEqual(a, b, |b|) <==> b <= a
    decreases |b|
  {
    if b != [] {
      assert CharAt(b, 0) == b[0] != Nul;
      if a != [] {
        assert Rest(a) == a[1..] && Rest(b) == b[1..];
        assert IsCString(a[1..]) && IsCString(b[1..]) by {
          assert forall i :: 0 <= i < |a| - 1 ==> a[1..][i] == a[i + 1];
          assert forall i :: 0 <= i < |b| - 1 ==> b[1..][i] == b[i + 1];
        }
        StrnEqualIsPrefix(a[1..], b[1..]);
        assert b <= a <==> a[0] == b[0] && b[1..] <= a[1..];
      }
    }
  }

  /** `check_url`: a URL without the prefix yields `URL_ERROR` before the
      probe is consulted; otherwise a failed probe leaves the initial
      `URL_UNKNOWN` and a completed one yields its name-lookup time. */
  function CheckUrl(url: string, probe: Probe): (r: real)
    ensures ValidProbe(probe) ==> (r == UrlError <==> !StrnEqual(url, UrlPrefix, |UrlPrefix|))
    ensures ValidProbe(probe) && StrnEqual(url, UrlPrefix, |UrlPrefix|) ==> (r == UrlUnknown <==> probe.ProbeFailed?)
    ensures ValidProbe(probe) ==> r == UrlError || r == UrlUnknown || r >= 0.0
  {
    if !StrnEqual(url, UrlPrefix, |UrlPrefix|) then UrlError
    else match probe
      case ProbeFailed => UrlUnknown
      case ProbeCompleted(t) => t
  }

  /** The three-way result `check_url` stands for. */
  function Classify(url: string, probe: Probe): (c: Classification)
    ensures c.Invalid? <==> !(UrlPrefix <= url)
    ensures ValidProbe(probe) ==> ValidClassification(c)
  {
    if !(UrlPrefix <= url) then Invalid
    else match probe
      case ProbeFailed => Unknown
      case ProbeCompleted(t) => Latency(t)
  }

  /** How the callers read the `double`: first `URL_UNKNOWN`, then
      `URL_ERROR`, anything else is a latency. */
  function Decode(res: real): (c: Classification)
    ensures c.Latency? ==> c.seconds == res && res != UrlUnknown && res != UrlError
    ensures c.Unknown? <==> res == UrlUnknown
    ensures c.Invalid? <==> res == UrlError
  {
    if res == UrlUnknown then Unknown
    else if res == UrlError then Invalid
    else Latency(res)
  }

  /** The sentinel encoding of a classification in one `double`. */
  function Encode(c: Classification): real
  {
    match c
    case Latency(t) => t
    case Unknown => UrlUnknown
    case Invalid => UrlError
  }

  /** Decoding undoes the encoding for every latency a probe can report. */
  lemma DecodeEncode(c: Classification)
    requires ValidClassification(c)
    ensures Decode(Encode(c)) == c
  {
  }

  /** `check_url` is the sentinel encoding of the three-way classification. */
  lemma CheckUrlEncodesClassify(url: string, probe: Probe)
    requires IsCString(url)
    ensures CheckUrl(url, probe) == Encode(Classify(url, probe))
  {
    StrnEqualIsPrefix(url, UrlPrefix);
  }

  /** A URL that does not start with the prefix is `URL_ERROR` whatever the
      probe would have answered: no probe result is used. */
  lemma NoProbeWithoutPrefix(url: string, p: Probe, q: Probe)
    requires IsCString(url) && !(UrlPrefix <= url)
    ensures CheckUrl(url, p) == UrlError
    ensures CheckUrl(url, p) == CheckUrl(url, q)
  {
    StrnEqualIsPrefix(url, UrlPrefix);
  }

  /** The callers recover exactly the classification of the URL. */
  lemma CallersRecoverClassification(url: string, probe: Probe)
    requires IsCString(url) && ValidProbe(probe)
    ensures Decode(CheckUrl(url, probe)) == Classify(url, probe)
  {
    CheckUrlEncodesClassify(url, probe);
    DecodeEncode(Classify(url, probe));
  }
}
