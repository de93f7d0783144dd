/** Host names with an optional port, as the certificate cache and the HTTPS handler read them. */
module Hosts {
  type Host = string

  datatype Split = NoSplit | HostPort(host: string, port: string)

  /** The position of the first `c` in `s`, or |s| when there is none. */
  function First(s: string, c: char): (i: nat)
    ensures i <= |s| && c !in s[..i] && (i < |s| ==> s[i] == c)
  {
    if s == [] || s[0] == c then 0 else
    var k := First(s[1..], c);
    assert s[..k + 1] == [s[0]] + s[1..][..k];
    k + 1
  }

  /** The position of the last `c` in `s`, or |s| when there is none. */
  function Last(s: string, c: char): (i: nat)
    ensures i <= |s| && (i < |s| ==> s[i] == c && c !in s[i + 1..]) && (i == |s| ==> c !in s)
  {
    if s == [] then 0
    else if s[|s| - 1] == c then |s| - 1
    else
      var k := Last(s[..|s| - 1], c);
      assert s == s[..|s| - 1] + [s[|s| - 1]];
      if k == |s| - 1 then |s|
      else assert s[k + 1..] == s[..|s| - 1][k + 1..] + [s[|s| - 1]]; k
  }

  /** Go's net.SplitHostPort: the port follows the last colon, and a host that itself contains a
      colon must stand in brackets. */
  function SplitHostPort(s: string): Split {
    var i := Last(s, ':');
    if i == |s| then NoSplit
    else if s[0] == '[' then
      var end := First(s, ']');
      if end == |s| || end + 1 != i then NoSplit
      else if '[' in s[1..] || ']' in s[end + 1..] then NoSplit
      else HostPort(s[1..end], s[i + 1..])
    else if ':' in s[..i] || '[' in s || ']' in s then NoSplit
    else HostPort(s[..i], s[i + 1..])
  }

  function ServerName(hostname: string): string {
    match SplitHostPort(hostname)
    case HostPort(host, _) => host
    case NoSplit => hostname
  }

  /** strings.ToLower, as far as it can give an ASCII letter: two letters outside ASCII do. */
  function LowerChar(c: char): char {
    if 'A' <= c <= 'Z' then (c as int + 32) as char
    else if c == DOTTED_I then 'i'
    else if c == KELVIN then 'k'
    else c
  }

  const DOTTED_I: char := '\U{0130}'
  const KELVIN: char := '\U{212A}'
  const LONG_S: char := '\U{017F}'

  function LowerCase(s: string): string { if s == [] then [] else [LowerChar(s[0])] + LowerCase(s[1..]) }

  /** strings.EqualFold on a string in lower-case ASCII. */
  predicate EqualFold(s: string, lower: string) {
    |s| == |lower| && forall i :: 0 <= i < |s| ==>
      if s[i] == DOTTED_I then false else if s[i] == LONG_S then lower[i] == 's' else LowerChar(s[i]) == lower[i]
  }

  lemma {:induction false} LowerCaseStays(s: string)
    requires forall i :: 0 <= i < |s| ==> 'a' <= s[i] <= 'z' || s[i] in "./-"
    ensures LowerCase(s) == s
  {
    if s == [] {
    } else {
      LowerCaseStays(s[1..]);
    }
  }

  predicate HasSuffix(s: string, t: string) { |t| <= |s| && s[|s| - |t|..] == t }

  const DISCORD: seq<string> := ["discord.com", "discord.gg"]

  function Canonical(host: string): string { LowerCase(if HasSuffix(host, ".") then host[..|host| - 1] else host) }

  /** isDiscordHost: one trailing dot and letter case do not matter; any depth of subdomain matches. */
  predicate IsDiscordHost(hostHeader: string) {
    var h := Canonical(ServerName(hostHeader));
    exists i :: 0 <= i < |DISCORD| && (h == DISCORD[i] || HasSuffix(h, "." + DISCORD[i]))
  }

  /** A plain host name with a plain port is taken apart again. */
  lemma PortIsStripped(host: string, port: string)
    requires ':' !in host && '[' !in host && ']' !in host && ':' !in port && '[' !in port && ']' !in port
    ensures ServerName(host + ":" + port) == host && ServerName(host) == host
  {
    var s := host + ":" + port;
    assert s[|host|] == ':' && s[..|host|] == host;
    assert Last(s, ':') == |host|;
  }

  predicate Plain(s: string) { ':' !in s && '[' !in s && ']' !in s }

  /** Brackets around a host that may contain colons are taken off with the port. */
  lemma BracketsAreStripped(host: string, port: string)
    requires '[' !in host && ']' !in host && Plain(port)
    ensures ServerName("[" + host + "]:" + port) == host
  {
    var s := "[" + host + "]:" + port;
    Bracketed(s, host, port);
    hide Last, First;
  }

  lemma Bracketed(s: string, host: string, port: string)
    requires '[' !in host && ']' !in host && Plain(port) && s == "[" + host + "]:" + port
    ensures s[0] == '[' && Last(s, ':') == |host| + 2 && First(s, ']') == |host| + 1
    ensures s[1..|host| + 1] == host && '[' !in s[1..] && ']' !in s[|host| + 2..]
  {
    hide Last, First;
    assert s[|host| + 3..] == port && s[..|host| + 1] == "[" + host;
    LastIs(s, ':', |host| + 2, port);
    FirstIs(s, ']', |host| + 1, "[" + host);
    assert s[1..] == host + "]:" + port;
    assert s[|host| + 2..] == ":" + port;
  }

  lemma LastIs(s: string, c: char, k: nat, t: string)
    requires k < |s| && s[k] == c && s[k + 1..] == t && c !in t
    ensures Last(s, c) == k
  {}

  lemma FirstIs(s: string, c: char, k: nat, t: string)
    requires k < |s| && s[k] == c && s[..k] == t && c !in t
    ensures First(s, c) == k
  {}

  /** A bare host with colons of its own is not split at all. */
  lemma ColonsAreLeftAlone(host: string, port: string)
    requires ':' in host && '[' !in host && Plain(port)
    ensures ServerName(host + ":" + port) == host + ":" + port
  {
    var s := host + ":" + port;
    assert s[|host|] == ':' && s[..|host|] == host && s[|host| + 1..] == port;
    assert Last(s, ':') == |host|;
    assert s[0] == host[0];
  }

  predicate HasNoBrackets(s: string) { '[' !in s && ']' !in s }

  /** A host and a port are found exactly in these two forms; every other name is left as it is. */
  lemma SplitsIff(s: string, host: string, port: string)
    ensures SplitHostPort(s) == HostPort(host, port) <==>
            && Plain(port) && HasNoBrackets(host)
            && ((':' !in host && s == host + ":" + port) || s == "[" + host + "]:" + port)
  {
    if Plain(port) && HasNoBrackets(host) {
      if ':' !in host && s == host + ":" + port { PlainSplits(s, host, port); }
      if s == "[" + host + "]:" + port { BracketedSplits(s, host, port); }
    }
    if SplitHostPort(s) == HostPort(host, port) {
      if s[0] == '[' {
        SplitWasBracketed(s, host, port);
      } else {
        SplitWasPlain(s, host, port);
      }
    }
  }

  lemma PlainSplits(s: string, host: string, port: string)
    requires Plain(host) && Plain(port) && s == host + ":" + port
    ensures SplitHostPort(s) == HostPort(host, port)
  {
    assert s[|host|] == ':' && s[..|host|] == host && s[|host| + 1..] == port;
    LastIs(s, ':', |host|, port);
    hide Last, First;
  }

  lemma BracketedSplits(s: string, host: string, port: string)
    requires HasNoBrackets(host) && Plain(port) && s == "[" + host + "]:" + port
    ensures SplitHostPort(s) == HostPort(host, port)
  {
    Bracketed(s, host, port);
    hide Last, First;
    assert s[|host| + 3..] == port;
  }

  lemma SplitWasPlain(s: string, host: string, port: string)
    requires SplitHostPort(s) == HostPort(host, port) && s[0] != '['
    ensures Plain(host) && Plain(port) && s == host + ":" + port
  {
    hide Last, First;
    var i := Last(s, ':');
    assert s == s[..i] + ":" + s[i + 1..];
    assert forall c :: c in s[..i] || c in s[i + 1..] ==> c in s;
  }

  lemma SplitWasBracketed(s: string, host: string, port: string)
    requires SplitHostPort(s) == HostPort(host, port) && s[0] == '['
    ensures HasNoBrackets(host) && Plain(port) && s == "[" + host + "]:" + port
  {
    hide Last, First;
    var end := First(s, ']');
    assert s == "[" + s[1..end] + "]:" + s[end + 2..];
    assert forall c :: c in s[1..end] ==> c in s[..end] && c in s[1..];
    assert forall c :: c in s[end + 2..] ==> c in s[1..] && c in s[end + 1..];
  }

  // -------------------------------------------------------------------------- names by their labels

  /** The labels of a name, between its dots. */
  function Labels(s: string): (ls: seq<string>)
    ensures |ls| > 0
  {
    var i := Last(s, '.');
    if i == |s| then [s] else Labels(s[..i]) + [s[i + 1..]]
  }

  predicate EndsIn(ls: seq<string>, a: string, b: string) { |ls| >= 2 && ls[|ls| - 2] == a && ls[|ls| - 1] == b }

  lemma Cut(h: string, g: string, t: string)
    requires '.' !in t && h == g + "." + t
    ensures Last(h, '.') == |g| && h[..|g|] == g && h[|g| + 1..] == t
  {
    assert h[|g| + 1..] == t;
    LastIs(h, '.', |g|, t);
  }

  lemma SplitsOnce(h: string, g: string, t: string, f: string, b: string)
    requires '.' !in t && '.' !in b && h == g + "." + t && h == f + "." + b
    ensures g == f && t == b
  {
    hide Last;
    Cut(h, g, t);
    Cut(h, f, b);
  }

  lemma SuffixIff(s: string, t: string)
    ensures HasSuffix(s, t) <==> exists f :: s == f + t
  {
    if HasSuffix(s, t) { assert s == s[..|s| - |t|] + t; }
  }

  lemma CharsOfSuffix(s: string, t: string, c: char)
    ensures HasSuffix(s, t) && c in t ==> c in s
  {}

  lemma LabelsCut(h: string)
    ensures var i := Last(h, '.');
            if i < |h| then
              && '.' !in h[i + 1..] && h == h[..i] + "." + h[i + 1..]
              && Labels(h) == Labels(h[..i]) + [h[i + 1..]]
            else '.' !in h && Labels(h) == [h]
  {
    LabelsUnfold(h);
    var i := Last(h, '.');
    hide Last, Labels;
    if i < |h| { WholeIsParts(h, i); }
  }

  lemma LabelsUnfold(h: string)
    ensures var i := Last(h, '.');
            Labels(h) == if i == |h| then [h] else Labels(h[..i]) + [h[i + 1..]]
  {
    hide Last;
  }

  lemma WholeIsParts(h: string, i: nat)
    requires i < |h| && h[i] == '.'
    ensures h == h[..i] + "." + h[i + 1..]
  {}

  lemma LastLabelIff(h: string, b: string)
    requires '.' !in b
    ensures Labels(h)[|Labels(h)| - 1] == b <==> h == b || HasSuffix(h, "." + b)
  {
    LabelsCut(h);
    hide Labels, Last, HasSuffix;
    var i := Last(h, '.');
    if i < |h| {
      TailIff(h[..i], h[i + 1..], b);
    } else {
      CharsOfSuffix(h, "." + b, '.');
    }
  }

  lemma TailIff(g: string, t: string, b: string)
    requires '.' !in t && '.' !in b
    ensures HasSuffix(g + "." + t, "." + b) <==> t == b
    ensures g + "." + t != b
  {
    var h := g + "." + t;
    SuffixIff(h, "." + b);
    hide HasSuffix;
    if f :| h == f + ("." + b) {
      assert f + ("." + b) == f + "." + b;
      SplitsOnce(h, g, t, f, b);
    }
    if t == b { assert h == g + ("." + b); }
    assert h[|g|] == '.';
  }

  lemma LastTwoLabelsIff(h: string, a: string, b: string)
    requires '.' !in a && '.' !in b
    ensures EndsIn(Labels(h), a, b) <==> h == a + "." + b || HasSuffix(h, "." + a + "." + b)
  {
    LabelsCut(h);
    hide Labels, Last, HasSuffix;
    var i := Last(h, '.');
    if i < |h| {
      CutLabelsIff(h, h[..i], h[i + 1..], a, b);
    } else {
      NoTwoLabels(h, a, b);
    }
  }

  lemma NoTwoLabels(h: string, a: string, b: string)
    requires '.' !in h
    ensures h != a + "." + b && !HasSuffix(h, "." + a + "." + b)
  {
    CharsOfSuffix(h, "." + a + "." + b, '.');
    assert (a + "." + b)[|a|] == '.';
    assert ("." + a + "." + b)[0] == '.';
  }

  lemma CutLabelsIff(h: string, g: string, t: string, a: string, b: string)
    requires '.' !in a && '.' !in b && '.' !in t && h == g + "." + t
    ensures (Labels(g)[|Labels(g)| - 1] == a && t == b) <==> h == a + "." + b || HasSuffix(h, "." + a + "." + b)
  {
    LastLabelIff(g, a);
    TwoTailsIff(h, g, t, a, b);
    hide Labels, HasSuffix;
    if h == a + "." + b { SplitsOnce(h, g, t, a, b); }
  }

  lemma TwoTailsIff(h: string, g: string, t: string, a: string, b: string)
    requires '.' !in t && '.' !in b && h == g + "." + t
    ensures HasSuffix(h, "." + a + "." + b) <==> t == b && HasSuffix(g, "." + a)
  {
    SuffixIff(h, "." + a + "." + b);
    SuffixIff(g, "." + a);
    hide HasSuffix;
    if f :| h == f + ("." + a + "." + b) { TwoTailsThere(h, g, t, f, a, b); }
    if f :| t == b && g == f + ("." + a) { TwoTailsBack(h, g, f, a, b); }
  }

  lemma TwoTailsThere(h: string, g: string, t: string, f: string, a: string, b: string)
    requires '.' !in t && '.' !in b && h == g + "." + t && h == f + ("." + a + "." + b)
    ensures t == b && g == f + ("." + a)
  {
    assert f + ("." + a + "." + b) == (f + ("." + a)) + "." + b;
    SplitsOnce(h, g, t, f + ("." + a), b);
  }

  lemma TwoTailsBack(h: string, g: string, f: string, a: string, b: string)
    requires h == g + "." + b && g == f + ("." + a)
    ensures h == f + ("." + a + "." + b)
  {}

  lemma MatchesIff(hostHeader: string)
    ensures var h := Canonical(ServerName(hostHeader));
            IsDiscordHost(hostHeader) <==>
              || h == "discord" + "." + "com" || HasSuffix(h, "." + "discord" + "." + "com")
              || h == "discord" + "." + "gg" || HasSuffix(h, "." + "discord" + "." + "gg")
  {
    hide Canonical, ServerName, HasSuffix;
    DiscordNames();
    var h := Canonical(ServerName(hostHeader));
    assert IsDiscordHost(hostHeader) <==>
           || h == DISCORD[0] || HasSuffix(h, "." + DISCORD[0]) || h == DISCORD[1] || HasSuffix(h, "." + DISCORD[1]);
  }

  lemma DiscordNames()
    ensures |DISCORD| == 2
    ensures "discord" + "." + "com" == DISCORD[0] && "discord" + "." + "gg" == DISCORD[1]
    ensures "." + "discord" + "." + "com" == "." + DISCORD[0] && "." + "discord" + "." + "gg" == "." + DISCORD[1]
  {}

  lemma {:induction false} LowerCaseAt(s: string, i: nat)
    requires i < |s|
    ensures |LowerCase(s)| == |s|
    ensures LowerCase(s)[i] ==
              if 'A' <= s[i] <= 'Z' then (s[i] as int + 32) as char
              else if s[i] == '\U{0130}' then 'i'
              else if s[i] == '\U{212A}' then 'k'
              else s[i]
  {
    if |s| == 1 {
      assert LowerCase(s[1..]) == [];
    } else if i == 0 {
      LowerCaseAt(s[1..], 0);
    } else {
      LowerCaseAt(s[1..], i - 1);
    }
  }

  /** The name that is compared: one trailing dot less, and letter by letter in lower case. */
  lemma CanonicalIs(host: string)
    ensures var h := if host != "" && host[|host| - 1] == '.' then host[..|host| - 1] else host;
            && |Canonical(host)| == |h|
            && forall i :: 0 <= i < |h| ==>
                 Canonical(host)[i] ==
                   if 'A' <= h[i] <= 'Z' then (h[i] as int + 32) as char
                   else if h[i] == '\U{0130}' then 'i'
                   else if h[i] == '\U{212A}' then 'k'
                   else h[i]
  {
    var h := if host != "" && host[|host| - 1] == '.' then host[..|host| - 1] else host;
    assert HasSuffix(host, ".") <==> host != "" && host[|host| - 1] == '.';
    assert Canonical(host) == LowerCase(h);
    if h != "" { LowerCaseAt(h, 0); }
    forall i | 0 <= i < |h|
      ensures Canonical(host)[i] ==
                if 'A' <= h[i] <= 'Z' then (h[i] as int + 32) as char
                else if h[i] == '\U{0130}' then 'i'
                else if h[i] == '\U{212A}' then 'k'
                else h[i]
    {
      LowerCaseAt(h, i);
    }
  }

  /** On ASCII, equal folding is equality in lower case. */
  lemma EqualFoldIff(s: string, lower: string)
    requires forall i :: 0 <= i < |s| ==> s[i] < '\U{0080}'
    ensures EqualFold(s, lower) <==> LowerCase(s) == lower
  {
    if s == "" {
      assert LowerCase(s) == "";
    } else {
      forall i | 0 <= i < |s| ensures |LowerCase(s)| == |s| && LowerCase(s)[i] == LowerChar(s[i]) {
        LowerCaseAt(s, i);
      }
      assert |LowerCase(s)| == |s| by { LowerCaseAt(s, 0); }
    }
  }

  /** The last two labels of the name are those of a Discord domain, whatever the case, after one
      trailing dot has been taken off. */
  predicate NamesDiscord(hostHeader: string) {
    var ls := Labels(Canonical(ServerName(hostHeader)));
    EndsIn(ls, "discord", "com") || EndsIn(ls, "discord", "gg")
  }

  lemma DiscordHeadersByLabels(hostHeader: string)
    ensures IsDiscordHost(hostHeader) <==> NamesDiscord(hostHeader)
  {
    MatchesIff(hostHeader);
    LastTwoLabelsIff(Canonical(ServerName(hostHeader)), "discord", "com");
    LastTwoLabelsIff(Canonical(ServerName(hostHeader)), "discord", "gg");
    hide Canonical, ServerName, Labels, EndsIn, HasSuffix, IsDiscordHost;
  }

  /** A plain name, with or without a port: the labels are those of the name. */
  lemma DiscordHostsByLabels(host: string, port: string)
    requires Plain(host) && Plain(port)
    ensures var ls := Labels(Canonical(host));
            IsDiscordHost(host) <==> EndsIn(ls, "discord", "com") || EndsIn(ls, "discord", "gg")
    ensures IsDiscordHost(host + ":" + port) <==> IsDiscordHost(host)
  {
    PortIsStripped(host, port);
    DiscordHeadersByLabels(host);
    DiscordHeadersByLabels(host + ":" + port);
    hide IsDiscordHost, ServerName, Canonical, Labels, EndsIn;
  }
}
