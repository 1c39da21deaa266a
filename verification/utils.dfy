/** The string helpers of the utils package: the "cube:port" peer reference and truncation.
    Strings are sequences of characters; the source's len counts bytes, which agrees for the
    ASCII names used here. */
module Utils {
  import opened Basics

  /** utils.CreatePeer: the peer reference "<service>:<port>" written into a port's peer field. */
  function CreatePeer(service: string, port: string): (r: string)
    ensures |r| == |service| + 1 + |port|
    ensures r[..|service|] == service && r[|service|] == ':' && r[|service| + 1..] == port
  {
    service + ":" + port
  }

  /** Reads a peer reference back: the text before the first ':' and the text after it. */
  function SplitPeer(s: string): (r: Option<(string, string)>)
    ensures r.None? <==> ':' !in s
    ensures r.Some? ==> ':' !in r.value.0 && r.value.0 + ":" + r.value.1 == s
  {
    match IndexOf(s, ':')
    case None => None
    case Some(i) =>
      assert s[..i] + ":" + s[i + 1..] == s;
      Some((s[..i], s[i + 1..]))
  }

  /** A peer reference built from a service name without ':' splits back into its parts. */
  lemma SplitCreatePeer(service: string, port: string)
    requires ':' !in service
    ensures SplitPeer(CreatePeer(service, port)) == Some((service, port))
  {
    IndexOfAfter(service, ':', port);
    var s := CreatePeer(service, port);
    assert s == service + [':'] + port;
    assert s[..|service|] == service;
    assert s[|service| + 1..] == port;
  }

  /** A service name holding ':' makes the reference ambiguous: the split stops at the
      service name's own ':'. */
  lemma SplitCreatePeerAmbiguous(service: string, port: string)
    requires ':' in service
    ensures SplitPeer(CreatePeer(service, port)) != Some((service, port))
  {
    var r := SplitPeer(CreatePeer(service, port));
    assert r.Some?;
  }

  /** utils.Truncate: the first n characters of s, or s itself when it is not longer than n.
      A negative n would make the source's slice expression panic, so it is excluded. */
  function Truncate(s: string, n: int): (r: string)
    requires n >= 0
    ensures |s| <= n ==> r == s
    ensures |s| > n ==> |r| == n
    ensures r <= s && |r| == Min(|s|, n)
  {
    if |s| > n then s[..n] else s
  }

  /** Truncating twice to the same length is truncating once. */
  lemma TruncateIdempotent(s: string, n: int)
    requires n >= 0
    ensures Truncate(Truncate(s, n), n) == Truncate(s, n)
  {
  }

  /** Truncating to m and then to a shorter n is truncating to n. */
  lemma TruncateTwice(s: string, m: int, n: int)
    requires 0 <= n <= m
    ensures Truncate(Truncate(s, m), n) == Truncate(s, n)
  {
  }
}
