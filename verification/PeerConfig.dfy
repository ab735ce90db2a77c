/**
 * The peers of an agent's A2A configuration, and the two composite keys the task server builds
 * from a peer's name. Source: packages/channel-a2a/src/config.ts.
 */
module PeerConfig {
  import opened Prelude
  import Text

  datatype Peer = Peer(
    name: string,
    key: Option<string>,
    url: Option<string>,
    tokenEnv: Option<string>,
    ratePerMinute: nat,
    maxChars: nat)

  /** A count as the manifest wrote it: left out, an integer, or anything else. */
  datatype RawCount = Absent | Whole(n: int) | NotWhole

  /** A peer's raw entry; `None` is a field that is missing or not a string. */
  datatype RawPeer = RawPeer(
    key: Option<string>,
    url: Option<string>,
    tokenEnv: Option<string>,
    ratePerMinute: RawCount,
    maxChars: RawCount)

  datatype ConfigError = BadName | NeitherKeyNorUrl | RelativeUrl | BadCount | SharedKey

  predicate SlugStart(c: char) {
    'a' <= c <= 'z' || '0' <= c <= '9'
  }

  /** The rule on peer names: lower-case letters, digits and hyphens, not starting with a hyphen. */
  predicate Slug(name: string) {
    && name != ""
    && SlugStart(name[0])
    && forall i | 0 <= i < |name| :: SlugStart(name[i]) || name[i] == '-'
  }

  function TextOf(raw: Option<string>): Option<string> {
    if raw.Some? && Text.Trim(raw.value) != "" then Some(Text.Trim(raw.value)) else None
  }

  function Count(raw: RawCount, fallback: nat): Option<nat> {
    match raw
    case Absent => Some(fallback)
    case Whole(n) => if n > 0 then Some(n) else None
    case NotWhole => None
  }

  predicate AbsoluteHttp(url: string) {
    "http://" <= url || "https://" <= url
  }

  function ReadPeer(name: string, raw: RawPeer): (r: Result<Peer, ConfigError>) {
    var key, url := TextOf(raw.key), TextOf(raw.url);
    var rate, chars := Count(raw.ratePerMinute, 30), Count(raw.maxChars, 20_000);
    if !Slug(name) then Err(BadName)
    else if key.None? && url.None? then Err(NeitherKeyNorUrl)
    else if url.Some? && !AbsoluteHttp(url.value) then Err(RelativeUrl)
    else if rate.None? || chars.None? then Err(BadCount)
    else Ok(Peer(name, key, url, TextOf(raw.tokenEnv), rate.value, chars.value))
  }

  /** Every entry in manifest order, up to the first one that is refused. */
  function ReadEach(raw: seq<(string, RawPeer)>): (r: Result<seq<Peer>, ConfigError>) {
    if raw == [] then Ok([])
    else
      var first := ReadPeer(raw[0].0, raw[0].1);
      if first.Err? then Err(first.error)
      else
        var rest := ReadEach(raw[1..]);
        if rest.Err? then rest else Ok([first.value] + rest.value)
  }

  ghost predicate EachReads(raw: seq<(string, RawPeer)>, peers: seq<Peer>) {
    |peers| == |raw| && forall i | 0 <= i < |raw| :: ReadPeer(raw[i].0, raw[i].1) == Ok(peers[i])
  }

  lemma {:induction false} ReadEachIs(raw: seq<(string, RawPeer)>)
    ensures ReadEach(raw).Ok? ==> EachReads(raw, ReadEach(raw).value)
    ensures ReadEach(raw).Err? ==> exists i | 0 <= i < |raw| :: ReadPeer(raw[i].0, raw[i].1).Err?
  {
    if raw != [] {
      ReadEachIs(raw[1..]);
      if ReadPeer(raw[0].0, raw[0].1).Ok? && ReadEach(raw[1..]).Err? {
        var i :| 0 <= i < |raw[1..]| && ReadPeer(raw[1..][i].0, raw[1..][i].1).Err?;
        assert ReadPeer(raw[i + 1].0, raw[i + 1].1).Err?;
      }
    }
  }

  predicate KeysDistinct(peers: seq<Peer>) {
    forall i, j | 0 <= i < j < |peers| :: peers[i].key.Some? ==> peers[i].key != peers[j].key
  }

  function ReadPeers(raw: seq<(string, RawPeer)>): (r: Result<seq<Peer>, ConfigError>) {
    var each := ReadEach(raw);
    if each.Err? then each
    else if KeysDistinct(each.value) then each
    else Err(SharedKey)
  }

  /** The peer a presented key label belongs to: the first match, as the server looks it up. */
  function PeerOf(peers: seq<Peer>, caller: string): (r: Option<Peer>) {
    if peers == [] then None
    else if peers[0].key == Some(caller) then Some(peers[0])
    else PeerOf(peers[1..], caller)
  }

  lemma {:induction false} PeerOfFindsFirst(peers: seq<Peer>, caller: string)
    ensures PeerOf(peers, caller).None? ==> forall p | p in peers :: p.key != Some(caller)
    ensures PeerOf(peers, caller).Some? ==>
              PeerOf(peers, caller).value in peers && PeerOf(peers, caller).value.key == Some(caller)
  {
    if peers != [] {
      PeerOfFindsFirst(peers[1..], caller);
    }
  }

  /** What an accepted entry guarantees. */
  ghost predicate Sound(p: Peer) {
    && Slug(p.name)
    && (p.key.Some? || p.url.Some?)
    && (p.url.Some? ==> AbsoluteHttp(p.url.value))
    && p.ratePerMinute > 0 && p.maxChars > 0
  }

  lemma AcceptedIsSound(name: string, raw: RawPeer)
    requires ReadPeer(name, raw).Ok?
    ensures Sound(ReadPeer(name, raw).value)
  {}

  lemma {:induction false} KeyNamesOne(peers: seq<Peer>, caller: string, p: Peer)
    requires KeysDistinct(peers)
    ensures PeerOf(peers, caller) == Some(p) <==> p in peers && p.key == Some(caller)
  {
    PeerOfFindsFirst(peers, caller);
    if p in peers && p.key == Some(caller) {
      var q := PeerOf(peers, caller).value;
      var i :| 0 <= i < |peers| && peers[i] == p;
      var j :| 0 <= j < |peers| && peers[j] == q;
    }
  }

  /**
   * A configuration that was read without error gives every peer a slug name and positive limits,
   * and a key label identifies exactly one peer: looking a label up finds p if and only if p is a
   * configured peer with that key.
   */
  lemma {:induction false} ReadConfigIdentifiesPeers(raw: seq<(string, RawPeer)>, caller: string, p: Peer)
    requires ReadPeers(raw).Ok?
    ensures p in ReadPeers(raw).value ==> Sound(p)
    ensures PeerOf(ReadPeers(raw).value, caller) == Some(p)
            <==> p in ReadPeers(raw).value && p.key == Some(caller)
  {
    var peers := ReadPeers(raw).value;
    KeyNamesOne(peers, caller, p);
    ReadEachIs(raw);
    if p in peers {
      var i :| 0 <= i < |peers| && peers[i] == p;
      AcceptedIsSound(raw[i].0, raw[i].1);
    }
  }

  /** Two entries that are fine on their own but name the same key. */
  ghost predicate ShareKey(x: (string, RawPeer), y: (string, RawPeer)) {
    var p, q := ReadPeer(x.0, x.1), ReadPeer(y.0, y.1);
    p.Ok? && q.Ok? && p.value.key.Some? && p.value.key == q.value.key
  }

  /** When reading refuses: some entry is refused on its own, or two accepted entries share a key. */
  lemma ReadConfigRefuses(raw: seq<(string, RawPeer)>)
    ensures ReadPeers(raw).Ok? <==>
            && (forall i | 0 <= i < |raw| :: ReadPeer(raw[i].0, raw[i].1).Ok?)
            && (forall i, j | 0 <= i < j < |raw| :: !ShareKey(raw[i], raw[j]))
  {
    ReadEachIs(raw);
    if ReadEach(raw).Ok? {
      var peers := ReadEach(raw).value;
      forall i, j | 0 <= i < j < |raw|
        ensures ShareKey(raw[i], raw[j]) <==> peers[i].key.Some? && peers[i].key == peers[j].key
      {
        assert ReadPeer(raw[i].0, raw[i].1) == Ok(peers[i]);
        assert ReadPeer(raw[j].0, raw[j].1) == Ok(peers[j]);
      }
    }
  }

  /** The dedup key of a message: peer name, unit separator, message id. */
  function SourceKey(peer: string, messageId: string): string {
    peer + "\U{001F}" + messageId
  }

  /** The conversation a message belongs to: peer name, colon, context id. */
  function Recipient(peer: string, contextId: string): string {
    peer + ":" + contextId
  }

  lemma SeparatedInjective(p: string, s: char, m: string, q: string, n: string)
    requires s !in p && s !in q
    requires p + [s] + m == q + [s] + n
    ensures p == q && m == n
  {
    var t := p + [s] + m;
    assert t[|p|] == s && t[|q|] == s;
    assert t[..|p|] == p && t[..|q|] == q;
    assert m == t[|p| + 1..] && n == t[|q| + 1..];
  }

  /** Under the slug rule neither composite key can be forged by the part the peer chooses. */
  lemma CompositeKeysInjective(p: string, m: string, q: string, n: string)
    requires Slug(p) && Slug(q)
    ensures SourceKey(p, m) == SourceKey(q, n) <==> p == q && m == n
    ensures Recipient(p, m) == Recipient(q, n) <==> p == q && m == n
  {
    if SourceKey(p, m) == SourceKey(q, n) {
      assert "\U{001F}" == ['\U{001F}'];
      SeparatedInjective(p, '\U{001F}', m, q, n);
    }
    if Recipient(p, m) == Recipient(q, n) {
      SeparatedInjective(p, ':', m, q, n);
    }
  }
}
