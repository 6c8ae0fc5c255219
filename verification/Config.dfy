/** The configuration the scraping code reads (config.go), and the context a module is called with. */
module Config {
  import opened Decoder
  import opened Strings
  import opened Wrappers

  // A compiled regular expression is the set of names it matches, an arbitrary one.
  type Regexp = iset<string>

  datatype Config = Config(
    rabbitConnection: string,
    maxQueues: int,
    includeVHost: Regexp,
    skipVHost: Regexp,
    includeQueues: Regexp,
    skipQueues: Regexp,
    includeExchanges: Regexp,
    skipExchanges: Regexp)

  // What the exporter hands to a module; a value can be missing.
  datatype Context = Context(node: Option<string>, cluster: Option<string>, totalQueues: Option<int>)

  function OrEmpty(text: Option<string>): (s: string)
    ensures text.Some? ==> s == text.value
    ensures text.None? ==> s == ""
  {
    match text case Some(s) => s case None => ""
  }

  // A Go map read: a missing label is the empty string.
  function LabelOf(info: StatsInfo, key: string): (text: string)
    ensures key in info.labels ==> text == info.labels[key]
    ensures key !in info.labels ==> text == ""
  {
    if key in info.labels then info.labels[key] else ""
  }

  // Behind a load balancer nobody knows which node answered.
  function SelfLabel(config: Config, isSelf: bool): (text: string)
    ensures text == "lb" <==> config.rabbitConnection == "loadbalancer"
    ensures text == "1" <==> config.rabbitConnection != "loadbalancer" && isSelf
    ensures text == "0" <==> config.rabbitConnection != "loadbalancer" && !isSelf
  {
    if config.rabbitConnection == "loadbalancer" then "lb" else if isSelf then "1" else "0"
  }

  // --- Capabilities ---

  const CAPABILITIES := {"no_sort", "bert"}

  // The Unicode white space that Go's strings.TrimSpace removes.
  predicate IsSpace(c: char)
  {
    || c == ' ' || '\t' <= c <= '\r' || c == '\U{85}' || c == '\U{A0}' || c == '\U{1680}'
    || '\U{2000}' <= c <= '\U{200A}' || c == '\U{2028}' || c == '\U{2029}' || c == '\U{202F}'
    || c == '\U{205F}' || c == '\U{3000}'
  }

  function TrimSpace(s: string): string
  {
    if s == "" then s
    else if IsSpace(s[0]) then TrimSpace(s[1..])
    else if IsSpace(s[|s| - 1]) then TrimSpace(s[..|s| - 1])
    else s
  }

  // Only white space is removed, and only from the ends, and all of it there.
  lemma {:induction false} TrimSpaceTrims(s: string) returns (i: nat, j: nat)
    ensures i <= j <= |s| && TrimSpace(s) == s[i..j]
    ensures forall k :: 0 <= k < i || j <= k < |s| ==> IsSpace(s[k])
    ensures i < j ==> !IsSpace(s[i]) && !IsSpace(s[j - 1])
    decreases |s|
  {
    i, j := 0, |s|;
    if s != "" && IsSpace(s[0]) {
      i, j := TrimSpaceTrims(s[1..]);
      assert s[1..][i..j] == s[i + 1..j + 1];
      i, j := i + 1, j + 1;
    } else if s != "" && IsSpace(s[|s| - 1]) {
      i, j := TrimSpaceTrims(s[..|s| - 1]);
      assert s[..|s| - 1][i..j] == s[i..j];
    } else {
      assert s[..|s|] == s;
    }
  }

  // Blanks, tabs and line ends around a piece make no difference.
  lemma {:induction false} BlanksAreIgnored(s: string, c: char)
    requires c in " \t\n\r"
    ensures TrimSpace([c] + s) == TrimSpace(s) && TrimSpace(s + [c]) == TrimSpace(s)
    decreases |s|
  {
    assert ([c] + s)[1..] == s;
    if s == "" {
      assert s + [c] == [c];
    } else if IsSpace(s[0]) {
      BlanksAreIgnored(s[1..], c);
      assert (s + [c])[1..] == s[1..] + [c];
    } else {
      assert (s + [c])[..|s|] == s;
    }
  }

  predicate Among(parts: seq<string>, capability: string)
  {
    exists i :: 0 <= i < |parts| && TrimSpace(parts[i]) == capability
  }

  // Some piece between commas is the capability, once trimmed.
  predicate Mentions(raw: string, capability: string)
  {
    Among(Split(raw, ','), capability)
  }

  lemma {:induction false} AmongConcat(xs: seq<string>, ys: seq<string>, capability: string)
    ensures Among(xs + ys, capability) <==> Among(xs, capability) || Among(ys, capability)
  {
    if Among(xs, capability) {
      var i :| 0 <= i < |xs| && TrimSpace(xs[i]) == capability;
      assert (xs + ys)[i] == xs[i];
    }
    if Among(ys, capability) {
      var i :| 0 <= i < |ys| && TrimSpace(ys[i]) == capability;
      assert (xs + ys)[|xs| + i] == ys[i];
    }
  }

  method ParseCapabilities(raw: string) returns (result: set<string>)
    ensures forall c :: c in result <==> (c == "bert" || c == "no_sort") && Mentions(raw, c)
  {
    result := {};
    var candidates := Split(raw, ',');
    for n := 0 to |candidates|
      invariant forall c :: c in result <==> c in CAPABILITIES && Among(candidates[..n], c)
    {
      AmongConcat(candidates[..n], [candidates[n]], "no_sort");
      AmongConcat(candidates[..n], [candidates[n]], "bert");
      assert candidates[..n + 1] == candidates[..n] + [candidates[n]];
      var maybeCap := TrimSpace(candidates[n]);
      assert forall c :: Among([candidates[n]], c) <==> c == maybeCap;
      if maybeCap in CAPABILITIES {
        result := result + {maybeCap};
      }
    }
    assert candidates[..|candidates|] == candidates;
  }

  // Two capability lists joined by a comma enable what either enables.
  lemma {:induction false} JoinedCapabilities(a: string, b: string, capability: string)
    ensures Mentions(a + "," + b, capability) <==> Mentions(a, capability) || Mentions(b, capability)
  {
    SplitJoined(a, ',', b);
    assert a + "," + b == a + [','] + b;
    AmongConcat(Split(a, ','), Split(b, ','), capability);
  }
}
