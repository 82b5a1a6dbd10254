/** Rewriting of session descriptions and ICE candidate lines, and the choice of a public address. */
module Candidates {
  import opened Basics
  import opened Text

  // ---------------------------------------------------------------- session descriptions

  const CANDIDATE := "a=candidate"

  predicate IsCandidate(line: string) {
    CANDIDATE <= line
  }

  function Kept(lines: seq<string>): (r: seq<string>)
    ensures |r| <= |lines|
  {
    if lines == [] then []
    else (if IsCandidate(lines[0]) then [] else [lines[0]]) + Kept(lines[1..])
  }

  function FilterCandidates(sdp: string): string {
    Join(Kept(Split(sdp, '\n')), '\n')
  }

  lemma {:induction false} KeptLines(lines: seq<string>)
    ensures forall i :: 0 <= i < |Kept(lines)| ==> Kept(lines)[i] in lines && !IsCandidate(Kept(lines)[i])
    ensures |Kept(lines)| == |lines| <==> forall i :: 0 <= i < |lines| ==> !IsCandidate(lines[i])
    ensures |Kept(lines)| == |lines| ==> Kept(lines) == lines
  {
    if lines != [] {
      KeptLines(lines[1..]);
      assert forall i :: 0 <= i < |lines| - 1 ==> lines[1..][i] == lines[i + 1];
      assert lines == [lines[0]] + lines[1..];
    }
  }

  lemma {:induction false} KeptOfConcat(a: seq<string>, b: seq<string>)
    ensures Kept(a + b) == Kept(a) + Kept(b)
  {
    if a == [] {
      assert a + b == b;
    } else {
      assert (a + b)[1..] == a[1..] + b;
      KeptOfConcat(a[1..], b);
    }
  }

  /** The lines of the result are the lines that are not candidates, in order; with none left, a single empty line. */
  lemma FilteredLines(sdp: string)
    ensures var kept := Kept(Split(sdp, '\n'));
            Split(FilterCandidates(sdp), '\n') == if kept == [] then [""] else kept
  {
    var lines := Split(sdp, '\n');
    KeptLines(lines);
    if Kept(lines) != [] {
      SplitJoin(Kept(lines), '\n');
    }
  }

  /** Which lines the filter removes: a text is unchanged if and only if it has no candidate line. */
  lemma FilterUnchanged(sdp: string)
    ensures FilterCandidates(sdp) == sdp <==>
            forall i :: 0 <= i < |Split(sdp, '\n')| ==> !("a=candidate" <= Split(sdp, '\n')[i])
  {
    var lines := Split(sdp, '\n');
    KeptLines(lines);
    FilteredLines(sdp);
    JoinSplit(sdp, '\n');
    assert !IsCandidate("");
  }

  lemma FilterTwice(sdp: string)
    ensures FilterCandidates(FilterCandidates(sdp)) == FilterCandidates(sdp)
  {
    FilteredLines(sdp);
    KeptLines(Split(sdp, '\n'));
    assert !IsCandidate("");
    FilterUnchanged(FilterCandidates(sdp));
  }

  // ---------------------------------------------------------------- candidate lines

  datatype Error =
    | CannotParse
    | NotHost
    | InvalidPort
    | NoRaddr
    | NoRport
    | BadAddress
    | NoCandidate

  /** An endpoint whose port is any integer, as parseInt may return it. */
  datatype HostEndpoint = HostEndpoint(address: string, port: int)

  function SplitCandidateLine(candidate: string): (r: Result<seq<string>, Error>)
    ensures r.Ok? ==> |r.value| >= 8
  {
    var lines := Split(candidate, ' ');
    if |lines| < 8 || lines[6] != "typ" then Err(CannotParse) else Ok(lines)
  }

  function SplitHostCandidateLine(candidate: string): (r: Result<seq<string>, Error>)
    ensures r.Ok? ==> |r.value| >= 8
  {
    match SplitCandidateLine(candidate)
    case Err(e) => Err(e)
    case Ok(lines) => if lines[7] != "host" then Err(NotHost) else Ok(lines)
  }

  function ExtractEndpoint(candidate: string): Result<HostEndpoint, Error> {
    match SplitHostCandidateLine(candidate)
    case Err(e) => Err(e)
    case Ok(lines) =>
      match ParseInt(lines[5])
      case None => Err(InvalidPort)
      case Some(port) => Ok(HostEndpoint(lines[4], port))
  }

  function SetEndpoint(candidate: string, e: HostEndpoint): Result<string, Error> {
    match SplitHostCandidateLine(candidate)
    case Err(err) => Err(err)
    case Ok(lines) => Ok(Join(lines[4 := e.address][5 := IntText(e.port)], ' '))
  }

  method SetCandidateLineEndpoint(candidate: string, e: HostEndpoint) returns (r: Result<string, Error>)
    ensures r == SetEndpoint(candidate, e)
  {
    var split := SplitHostCandidateLine(candidate);
    if split.Err? {
      return Err(split.error);
    }
    var n := |split.value|;
    var lines := new string[n](i requires 0 <= i < n => split.value[i]);
    lines[4] := e.address;
    lines[5] := IntText(e.port);
    assert lines[..] == split.value[4 := e.address][5 := IntText(e.port)];
    return Ok(Join(lines[..], ' '));
  }

  predicate Tokens(t: seq<string>) {
    |t| >= 8 && forall i :: 0 <= i < |t| ==> ' ' !in t[i]
  }

  /** What is extracted from a line with the given tokens. */
  lemma HostLine(t: seq<string>)
    requires Tokens(t)
    ensures var r := ExtractEndpoint(Join(t, ' '));
            && (r == Err(CannotParse) <==> t[6] != "typ")
            && (r == Err(NotHost) <==> t[6] == "typ" && t[7] != "host")
            && (r == Err(InvalidPort) <==> t[6] == "typ" && t[7] == "host" && ParseInt(t[5]).None?)
            && (r.Ok? ==> Some(r.value.port) == ParseInt(t[5]) && r.value.address == t[4])
            && (r.Ok? <==> t[6] == "typ" && t[7] == "host" && ParseInt(t[5]).Some?)
  {
    SplitJoin(t, ' ');
  }

  /** Only the two tokens change, if and only if the address holds no space. */
  lemma SetTokens(candidate: string, e: HostEndpoint)
    requires SetEndpoint(candidate, e).Ok?
    ensures Split(SetEndpoint(candidate, e).value, ' ') == Split(candidate, ' ')[4 := e.address][5 := IntText(e.port)]
       <==> ' ' !in e.address
  {
    var tokens := Split(candidate, ' ')[4 := e.address][5 := IntText(e.port)];
    IntTextHasNoSpace(e.port);
    if ' ' !in e.address {
      SplitJoin(tokens, ' ');
    } else {
      assert tokens[4] == e.address;
    }
  }

  /** What was set is what is then extracted, if and only if the address holds no space. */
  lemma SetThenExtract(candidate: string, e: HostEndpoint)
    requires SetEndpoint(candidate, e).Ok?
    ensures ExtractEndpoint(SetEndpoint(candidate, e).value) == Ok(e) <==> ' ' !in e.address
  {
    if ' ' !in e.address {
      SetTokens(candidate, e);
      ParseIntOfIntText(e.port);
    } else {
      var line := SetEndpoint(candidate, e).value;
      assert SplitHostCandidateLine(line).Ok? ==> ' ' !in Split(line, ' ')[4];
    }
  }

  /** How many tokens a line has once an endpoint is set. */
  lemma TokensSet(candidate: string, e: HostEndpoint)
    requires SetEndpoint(candidate, e).Ok?
    ensures |Split(SetEndpoint(candidate, e).value, ' ')| == |Split(candidate, ' ')| - 1 + |Split(e.address, ' ')|
  {
    var tokens := Split(candidate, ' ');
    PiecesOfSplit(tokens, ' ');
    OnePiece(tokens[4], ' ');
    OnePiece(tokens[5], ' ');
    IntTextHasNoSpace(e.port);
    OnePiece(IntText(e.port), ' ');
    PiecesOfUpdate(tokens, ' ', 4, e.address);
    PiecesOfUpdate(tokens[4 := e.address], ' ', 5, IntText(e.port));
    PiecesOfJoin(tokens[4 := e.address][5 := IntText(e.port)], ' ');
  }

  /** Setting again leaves nothing of the first endpoint, if and only if its address holds no space. */
  lemma SetTwice(candidate: string, e1: HostEndpoint, e2: HostEndpoint)
    requires SetEndpoint(candidate, e1).Ok?
    ensures SetEndpoint(SetEndpoint(candidate, e1).value, e2) == SetEndpoint(candidate, e2) <==> ' ' !in e1.address
  {
    var lines := Split(candidate, ' ');
    var once := SetEndpoint(candidate, e1).value;
    if ' ' !in e1.address {
      SetTokens(candidate, e1);
      assert lines[4 := e1.address][5 := IntText(e1.port)][4 := e2.address][5 := IntText(e2.port)]
          == lines[4 := e2.address][5 := IntText(e2.port)];
    } else if SetEndpoint(once, e2).Ok? {
      TokensSet(candidate, e1);
      TokensSet(once, e2);
      TokensSet(candidate, e2);
      OnePiece(e1.address, ' ');
    }
  }

  /** Setting what was extracted restores the line, if and only if its port was written as the number it was read as. */
  lemma ExtractThenSet(candidate: string)
    requires ExtractEndpoint(candidate).Ok?
    ensures var e := ExtractEndpoint(candidate).value;
            SetEndpoint(candidate, e) == Ok(candidate) <==> Split(candidate, ' ')[5] == IntText(e.port)
  {
    var e := ExtractEndpoint(candidate).value;
    var lines := Split(candidate, ' ');
    JoinSplit(candidate, ' ');
    SetTokens(candidate, e);
    if lines[5] == IntText(e.port) {
      assert lines[4 := e.address][5 := IntText(e.port)] == lines;
    }
  }

  // ---------------------------------------------------------------- public addresses

  /** ipaddr.process: what kind of address a string is; None when it throws. */
  datatype Kind = Ipv6 | Ipv4(unicast: bool)

  /** A port as parseInt reads it, perhaps NaN. */
  datatype Address = Address(address: string, port: Option<int>)

  datatype NatPair = NatPair(internal: Address, external: Address)

  type Pairs = seq<NatPair>

  datatype Verdict =
    | Ignored
    | Bad(error: Error)
    | Public(pair: NatPair)
    | Reflexive(pair: NatPair)
    | Private(pair: NatPair)

  predicate IsUdp(s: string) {
    |s| == 3 && s[0] in {'u', 'U'} && s[1] in {'d', 'D'} && s[2] in {'p', 'P'}
  }

  function ReflexiveVerdict(tokens: seq<string>, process: string -> Option<Kind>): Verdict
    requires |tokens| >= 8
  {
    match process(tokens[4])
    case None => Bad(BadAddress)
    case Some(Ipv6) => Ignored
    case Some(Ipv4(_)) =>
      if |tokens| <= 8 || tokens[8] != "raddr" then Bad(NoRaddr)
      else if |tokens| <= 9 then Bad(BadAddress)
      else
        match process(tokens[9])
        case None => Bad(BadAddress)
        case Some(Ipv6) => Ignored
        case Some(Ipv4(_)) =>
          if |tokens| <= 10 || tokens[10] != "rport" then Bad(NoRport)
          else
            Reflexive(NatPair(Address(tokens[9], if |tokens| > 11 then ParseInt(tokens[11]) else None),
                              Address(tokens[4], ParseInt(tokens[5]))))
  }

  /** What one candidate line contributes. */
  function Judge(line: string, process: string -> Option<Kind>): Verdict {
    match SplitCandidateLine(line)
    case Err(e) => Bad(e)
    case Ok(tokens) =>
      if !IsUdp(tokens[2]) then Ignored
      else if tokens[7] == "srflx" then ReflexiveVerdict(tokens, process)
      else if tokens[7] == "host" then
        match process(tokens[4])
        case None => Bad(BadAddress)
        case Some(Ipv6) => Ignored
        case Some(Ipv4(unicast)) =>
          var e := Address(tokens[4], ParseInt(tokens[5]));
          if unicast then Public(NatPair(e, e)) else Private(NatPair(e, e))
      else Ignored
  }

  const UDP := {"udp", "udP", "uDp", "uDP", "Udp", "UdP", "UDp", "UDP"}

  lemma UdpSpellings(s: string)
    ensures IsUdp(s) <==> s in UDP
  {
    if IsUdp(s) {
      assert s == [s[0], s[1], s[2]];
    }
  }

  /** A UDP host candidate maps its endpoint to itself; whether it is public is up to its IPv4 address. */
  lemma HostJudged(t: seq<string>, process: string -> Option<Kind>, unicast: bool)
    requires Tokens(t) && t[2] in UDP && t[6] == "typ" && t[7] == "host"
    requires process(t[4]) == Some(Ipv4(unicast))
    ensures var own := Address(t[4], ParseInt(t[5]));
            Judge(Join(t, ' '), process) == if unicast then Public(NatPair(own, own)) else Private(NatPair(own, own))
  {
    UdpSpellings(t[2]);
    SplitJoin(t, ' ');
  }

  /** A server-reflexive one maps the endpoint after raddr and rport to the one in front. */
  lemma ReflexiveJudged(t: seq<string>, process: string -> Option<Kind>)
    requires Tokens(t) && |t| >= 12 && t[2] in UDP && t[6] == "typ" && t[7] == "srflx"
    requires t[8] == "raddr" && t[10] == "rport"
    requires process(t[4]).Some? && process(t[4]).value.Ipv4? && process(t[9]).Some? && process(t[9]).value.Ipv4?
    ensures Judge(Join(t, ' '), process)
         == Reflexive(NatPair(Address(t[9], ParseInt(t[11])), Address(t[4], ParseInt(t[5]))))
  {
    UdpSpellings(t[2]);
    SplitJoin(t, ' ');
  }

  /** Any other protocol or type is ignored, and so is IPv6. */
  lemma IgnoredJudged(t: seq<string>, process: string -> Option<Kind>)
    requires Tokens(t) && t[6] == "typ" && process(t[4]).Some?
    requires t[2] !in UDP || t[7] !in {"host", "srflx"} || process(t[4]).value.Ipv6?
    ensures Judge(Join(t, ' '), process) == Ignored
  {
    UdpSpellings(t[2]);
    SplitJoin(t, ' ');
  }

  /** Lower is better; only usable verdicts have a rank. */
  function Rank(v: Verdict): nat {
    match v
    case Public(_) => 0
    case Reflexive(_) => 1
    case Private(_) => 2
    case _ => 3
  }

  predicate Usable(v: Verdict) { Rank(v) < 3 }

  /** The i-th line is the first of the best rank. */
  predicate IsBest(vs: seq<Verdict>, i: nat)
    requires i < |vs|
  {
    && Usable(vs[i])
    && forall j :: 0 <= j < |vs| ==> Rank(vs[j]) >= Rank(vs[i]) && (j < i ==> Rank(vs[j]) > Rank(vs[i]))
  }

  function JudgeAll(lines: seq<string>, process: string -> Option<Kind>): seq<Verdict> {
    seq(|lines|, i requires 0 <= i < |lines| => Judge(lines[i], process))
  }

  /**
   Public host addresses are preferred to server-reflexive ones, and those to private ones; among equals the
   first wins. Any malformed line makes the choice fail, with the first such line's error.
   */
  predicate Selects(vs: seq<Verdict>, r: Result<NatPair, Error>) {
    match r
    case Ok(pair) =>
      && (forall j :: 0 <= j < |vs| ==> !vs[j].Bad?)
      && exists i :: 0 <= i < |vs| && IsBest(vs, i) && vs[i].pair == pair
    case Err(e) =>
      || (exists i :: 0 <= i < |vs| && vs[i] == Bad(e) && forall j :: 0 <= j < i ==> !vs[j].Bad?)
      || (e == NoCandidate && forall j :: 0 <= j < |vs| ==> vs[j].Ignored?)
  }

  method SelectPublicAddress(lines: seq<string>, process: string -> Option<Kind>) returns (r: Result<NatPair, Error>)
    ensures Selects(JudgeAll(lines, process), r)
  {
    ghost var vs := JudgeAll(lines, process);
    var publicHosts: seq<NatPair>, reflexive: seq<NatPair>, privateHosts: seq<NatPair> := [], [], [];
    for n := 0 to |lines|
      invariant Collected(vs[..n], publicHosts, reflexive, privateHosts)
    {
      var v := Judge(lines[n], process);
      assert vs[..n + 1] == vs[..n] + [v];
      if v.Bad? {
        BadEnds(vs, n);
        return Err(v.error);
      }
      CollectedMore(vs[..n], v, publicHosts, reflexive, privateHosts);
      match v {
        case Public(pair) => publicHosts := publicHosts + [pair];
        case Reflexive(pair) => reflexive := reflexive + [pair];
        case Private(pair) => privateHosts := privateHosts + [pair];
        case Ignored =>
      }
    }
    assert vs[..|lines|] == vs;
    CollectedSelects(vs, publicHosts, reflexive, privateHosts);
    if publicHosts != [] {
      return Ok(publicHosts[0]);
    } else if reflexive != [] {
      return Ok(reflexive[0]);
    } else if privateHosts != [] {
      return Ok(privateHosts[0]);
    }
    return Err(NoCandidate);
  }

  ghost predicate Collected(vs: seq<Verdict>, publicHosts: Pairs, reflexive: Pairs, privateHosts: Pairs) {
    && (forall j :: 0 <= j < |vs| ==> !vs[j].Bad?)
    && FirstOfRank(vs, 0, publicHosts) && FirstOfRank(vs, 1, reflexive) && FirstOfRank(vs, 2, privateHosts)
  }

  lemma BadEnds(vs: seq<Verdict>, n: nat)
    requires n < |vs| && vs[n].Bad? && forall j :: 0 <= j < n ==> !vs[..n][j].Bad?
    ensures Selects(vs, Err(vs[n].error))
  {
    assert forall j :: 0 <= j < n ==> vs[..n][j] == vs[j];
  }

  lemma CollectedMore(vs: seq<Verdict>, v: Verdict, publicHosts: Pairs, reflexive: Pairs, privateHosts: Pairs)
    requires Collected(vs, publicHosts, reflexive, privateHosts) && !v.Bad?
    ensures Collected(vs + [v], if v.Public? then publicHosts + [v.pair] else publicHosts,
                      if v.Reflexive? then reflexive + [v.pair] else reflexive,
                      if v.Private? then privateHosts + [v.pair] else privateHosts)
  {
    FirstKept(vs, v, 0, publicHosts);
    FirstKept(vs, v, 1, reflexive);
    FirstKept(vs, v, 2, privateHosts);
  }

  lemma CollectedSelects(vs: seq<Verdict>, publicHosts: Pairs, reflexive: Pairs, privateHosts: Pairs)
    requires Collected(vs, publicHosts, reflexive, privateHosts)
    ensures Selects(vs, if publicHosts != [] then Ok(publicHosts[0]) else if reflexive != [] then Ok(reflexive[0])
                        else if privateHosts != [] then Ok(privateHosts[0]) else Err(NoCandidate))
  {
    if publicHosts != [] {
      FirstIsBest(vs, 0, publicHosts);
    } else if reflexive != [] {
      FirstIsBest(vs, 1, reflexive);
    } else if privateHosts != [] {
      FirstIsBest(vs, 2, privateHosts);
    }
  }

  lemma FirstIsBest(vs: seq<Verdict>, rank: nat, found: seq<NatPair>)
    requires rank < 3 && found != [] && FirstOfRank(vs, rank, found)
    requires forall j :: 0 <= j < |vs| ==> Rank(vs[j]) >= rank
    ensures exists i :: 0 <= i < |vs| && IsBest(vs, i) && vs[i].pair == found[0]
  {
    var i :| 0 <= i < |vs| && IsFirst(vs, i, rank) && vs[i].pair == found[0];
    assert IsBest(vs, i);
  }

  predicate IsFirst(vs: seq<Verdict>, i: nat, rank: nat)
    requires i < |vs| && rank < 3
  {
    Rank(vs[i]) == rank && forall j :: 0 <= j < i ==> Rank(vs[j]) != rank
  }

  /** The list collected for a rank is empty when it has no line, and otherwise starts with its first. */
  ghost predicate FirstOfRank(vs: seq<Verdict>, rank: nat, found: seq<NatPair>)
    requires rank < 3
  {
    if found == [] then forall j :: 0 <= j < |vs| ==> Rank(vs[j]) != rank
    else exists i :: 0 <= i < |vs| && IsFirst(vs, i, rank) && vs[i].pair == found[0]
  }

  lemma FirstKept(vs: seq<Verdict>, v: Verdict, rank: nat, found: seq<NatPair>)
    requires rank < 3 && FirstOfRank(vs, rank, found)
    ensures FirstOfRank(vs + [v], rank, if Rank(v) == rank then found + [v.pair] else found)
  {
    if found != [] {
      var i :| 0 <= i < |vs| && IsFirst(vs, i, rank) && vs[i].pair == found[0];
      assert (vs + [v])[i] == vs[i];
    } else if Rank(v) == rank {
      assert (vs + [v])[|vs|] == v;
    }
  }
}
