/** `net.JoinHostPort`, `net.SplitHostPort` and the generators' `splitHostPort`. */
module HostPort {
  import opened Wrappers
  import opened Bytes
  import Decimal

  function JoinHostPort(host: string, port: string): string {
    if ':' in host then "[" + host + "]:" + port else host + ":" + port
  }

  /** None stands for each of the library's address errors. */
  function SplitHostPort(hp: string): Option<(string, string)> {
    var i := LastIndexByte(hp, ':');
    if i < 0 then None
    else if hp[0] == '[' then
      var end := IndexByte(hp, ']');
      if end < 0 || end + 1 != i then None
      else if '[' in hp[1..] || ']' in hp[end + 1..] then None
      else Some((hp[1..end], hp[i + 1..]))
    else if ':' in hp[..i] || '[' in hp || ']' in hp then None
    else Some((hp[..i], hp[i + 1..]))
  }

  /** Host and numeric port of an address, as both core generators read it. */
  function ParseAddr(addr: string): Option<(string, int)> {
    match SplitHostPort(addr)
    case None => None
    case Some((host, p)) =>
      match Decimal.Atoi(p)
      case None => None
      case Some(port) => Some((host, port))
  }

  function AddrText(host: string, port: int): string {
    JoinHostPort(host, Decimal.Itoa(port))
  }

  predicate Unbracketed(host: string) {
    '[' !in host && ']' !in host
  }

  lemma {:induction false} LastColon(a: string, b: string)
    requires ':' !in b
    ensures LastIndexByte(a + ":" + b, ':') == |a|
  {
    var s := a + ":" + b;
    assert s[|a|] == ':';
    forall j | |a| < j < |s|
      ensures s[j] != ':'
    {
      assert s[j] == b[j - |a| - 1];
    }
  }

  lemma {:induction false} BracketedParts(host: string, port: string, hp: string)
    requires hp == "[" + host + "]:" + port
    ensures |hp| == |host| + |port| + 3 && hp[0] == '[' && hp[|host| + 1] == ']' && hp[|host| + 2] == ':'
    ensures hp[1..|host| + 1] == host && hp[|host| + 3..] == port && hp[|host| + 2..] == ":" + port
    ensures forall j :: 0 <= j < |host| ==> hp[1 + j] == host[j]
  {
  }

  /** The first ']' of a bracketed address closes it exactly when the host has none. */
  lemma {:induction false} ClosingBracket(host: string, port: string, hp: string)
    requires hp == "[" + host + "]:" + port
    ensures IndexByte(hp, ']') >= 0
    ensures IndexByte(hp, ']') == |host| + 1 <==> ']' !in host
  {
    BracketedParts(host, port, hp);
    var end := IndexByte(hp, ']');
    assert 0 < end <= |host| + 1;
    if end < |host| + 1 {
      assert hp[1 + (end - 1)] == host[end - 1];
    } else {
      forall j | 0 <= j < |host|
        ensures host[j] != ']'
      {
        assert hp[1 + j] == host[j];
      }
    }
  }

  lemma {:induction false} OpeningBracket(host: string, port: string, hp: string)
    requires hp == "[" + host + "]:" + port && Unbracketed(port)
    ensures '[' in hp[1..] <==> '[' in host
  {
    BracketedParts(host, port, hp);
    assert hp[1..] == host + (hp[|host| + 1..]);
    assert hp[|host| + 1..] == "]:" + port;
    var tail := "]:" + port;
    forall j | 0 <= j < |tail|
      ensures tail[j] != '['
    {
      assert j < 2 || tail[j] == port[j - 2];
    }
  }

  /** The bracketed form: an IPv6 literal reads back, a host with a bracket never does. */
  lemma {:induction false} SplitOfBracketed(host: string, port: string, hp: string)
    requires hp == "[" + host + "]:" + port
    requires ':' !in port && Unbracketed(port)
    ensures SplitHostPort(hp) == if Unbracketed(host) then Some((host, port)) else None
  {
    var i := LastIndexByte(hp, ':');
    assert i == |host| + 2 by {
      assert hp == ("[" + host + "]") + ":" + port;
      LastColon("[" + host + "]", port);
    }
    BracketedParts(host, port, hp);
    ClosingBracket(host, port, hp);
    OpeningBracket(host, port, hp);
    var end := IndexByte(hp, ']');
    if end == |host| + 1 {
      assert hp[end + 1..] == ":" + port;
      assert hp[i + 1..] == port;
      assert ']' !in hp[end + 1..];
    }
  }

  lemma {:induction false} SplitOfColonFree(host: string, port: string)
    requires ':' !in port && Unbracketed(port) && ':' !in host
    ensures SplitHostPort(host + ":" + port) == Some((host, port)) <==> Unbracketed(host)
  {
    var hp := host + ":" + port;
    LastColon(host, port);
    assert hp[..|host|] == host && hp[|host| + 1..] == port;
    if Unbracketed(host) {
      assert hp[0] != '[';
    } else if hp[0] == '[' && SplitHostPort(hp).Some? {
      assert |SplitHostPort(hp).value.0| < |host|;
    } else if hp[0] != '[' {
      var k :| 0 <= k < |host| && (host[k] == '[' || host[k] == ']');
      assert hp[k] == host[k];
    }
  }

  /** Joining then splitting gives the host back exactly when it has no bracket. */
  lemma {:induction false} SplitOfJoin(host: string, port: string)
    requires ':' !in port && Unbracketed(port)
    ensures SplitHostPort(JoinHostPort(host, port)) == Some((host, port)) <==> Unbracketed(host)
  {
    if ':' in host {
      SplitOfBracketed(host, port, JoinHostPort(host, port));
    } else {
      SplitOfColonFree(host, port);
    }
  }

  lemma {:induction false} ItoaIsPlain(n: int)
    ensures ':' !in Decimal.Itoa(n) && Unbracketed(Decimal.Itoa(n))
  {
  }

  /** A pin written by a generator reads back as the host and port it was built from. */
  lemma {:induction false} ParseOfAddrText(host: string, port: int)
    requires Unbracketed(host)
    requires Decimal.MIN_INT <= port <= Decimal.MAX_INT
    ensures ParseAddr(AddrText(host, port)) == Some((host, port))
  {
    ItoaIsPlain(port);
    SplitOfJoin(host, Decimal.Itoa(port));
    Decimal.AtoiOfItoa(port);
  }

  /** The two forms of an address: a host without a colon, or any host in brackets. */
  predicate IsHostPort(hp: string, host: string, port: string) {
    && ':' !in port && '[' !in port && ']' !in port && '[' !in host && ']' !in host
    && ((hp == host + ":" + port && ':' !in host) || hp == "[" + host + "]:" + port)
  }

  /** An address is split exactly when it has one of the two forms. */
  lemma {:induction false} SplitIff(hp: string, host: string, port: string)
    ensures SplitHostPort(hp) == Some((host, port)) <==> IsHostPort(hp, host, port)
  {
    if IsHostPort(hp, host, port) {
      if hp == "[" + host + "]:" + port {
        SplitOfBracketed(host, port, hp);
      } else {
        SplitOfColonFree(host, port);
      }
    } else if SplitHostPort(hp) == Some((host, port)) {
      SplitShape(hp, host, port);
    }
  }

  lemma {:induction false} SplitShape(hp: string, host: string, port: string)
    requires SplitHostPort(hp) == Some((host, port))
    ensures IsHostPort(hp, host, port)
  {
    var i := LastIndexByte(hp, ':');
    forall j | 0 <= j < |port|
      ensures port[j] != ':'
    {
      assert port[j] == hp[i + 1 + j];
    }
    if hp[0] == '[' {
      var end := IndexByte(hp, ']');
      assert hp == "[" + host + "]:" + port;
      InTail(hp, 1, host, 1);
      InTail(hp, 1, port, i + 1);
      InTail(hp, end + 1, port, i + 1);
      assert forall j :: 0 <= j < |host| ==> host[j] == hp[1 + j];
    } else {
      assert hp == host + ":" + port;
      assert forall j :: 0 <= j < |host| ==> host[j] == hp[j];
      assert forall j :: 0 <= j < |port| ==> port[j] == hp[i + 1 + j];
    }
  }

  /** A piece of the tail holds no bracket the tail does not. */
  lemma {:induction false} InTail(hp: string, from: nat, part: string, at: nat)
    requires from <= at && at + |part| <= |hp| && part == hp[at..at + |part|]
    ensures '[' !in hp[from..] ==> '[' !in part
    ensures ']' !in hp[from..] ==> ']' !in part
  {
    forall j | 0 <= j < |part|
      ensures part[j] in hp[from..]
    {
      assert part[j] == hp[at + j] == hp[from..][at + j - from];
    }
  }
}
