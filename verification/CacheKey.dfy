/** The string under which a stack of layers is cached, and why no two stacks share one. */
module CacheKey {
  import opened Wrappers

  datatype LayerRef = LayerRef(repo: string, stateId: string)

  const NUL: char := '\0'
  const UNIT: char := '\U{1f}'

  function Part(l: LayerRef): string {
    l.repo + [NUL] + l.stateId
  }

  /** Parts joined by the unit separator. */
  function Join(parts: seq<string>): string {
    if parts == [] then ""
    else if |parts| == 1 then parts[0]
    else parts[0] + [UNIT] + Join(parts[1..])
  }

  function Parts(layers: seq<LayerRef>): seq<string> {
    seq(|layers|, i requires 0 <= i < |layers| => Part(layers[i]))
  }

  function KeyOf(layers: seq<LayerRef>): string {
    Join(Parts(layers))
  }

  /** The key as the source builds it. */
  method BuildKey(layers: seq<LayerRef>) returns (key: string)
    ensures key == KeyOf(layers)
  {
    var keys: seq<string> := [];
    for i := 0 to |layers|
      invariant keys == Parts(layers[..i])
    {
      assert layers[..i + 1][..i] == layers[..i];
      keys := keys + [layers[i].repo + [NUL] + layers[i].stateId];
    }
    assert layers[..|layers|] == layers;
    key := Join(keys);
  }

  /** File system paths contain no NUL; state ids contain neither separator. */
  ghost predicate RefOk(l: LayerRef) {
    NUL !in l.repo && NUL !in l.stateId && UNIT !in l.stateId
  }

  function FirstIndex(s: string, c: char): (i: nat)
    ensures i <= |s|
    ensures forall j :: 0 <= j < i ==> s[j] != c
    ensures i < |s| ==> s[i] == c
  {
    if s == "" || s[0] == c then 0 else 1 + FirstIndex(s[1..], c)
  }

  /** What stands before and after the first c; None when there is no c. */
  function Cut(s: string, c: char): (r: Option<(string, string)>)
    ensures r.Some? ==> |r.value.1| < |s|
  {
    var i := FirstIndex(s, c);
    if i == |s| then None else Some((s[..i], s[i + 1..]))
  }

  lemma CutAt(a: string, c: char, b: string)
    requires c !in a
    ensures Cut(a + [c] + b, c) == Some((a, b))
  {
    var s := a + [c] + b;
    var i := FirstIndex(s, c);
    assert s[|a|] == c;
    assert forall j :: 0 <= j < |a| ==> s[j] == a[j] && a[j] in a;
    assert i == |a|;
    assert s[..i] == a && s[i + 1..] == b;
  }

  lemma CutNone(a: string, c: char)
    requires c !in a
    ensures Cut(a, c) == None
  {
  }

  /** Reads a key back: up to the first NUL the repository, then up to the first unit separator
      the state, then the rest. A repository path may itself contain unit separators. */
  function Decode(key: string): Option<seq<LayerRef>>
    decreases |key|
  {
    if key == "" then Some([])
    else
      match Cut(key, NUL)
      case None => None
      case Some((repo, rest)) =>
        match Cut(rest, UNIT)
        case None => Some([LayerRef(repo, rest)])
        case Some((stateId, more)) =>
          if more == "" then None
          else
            match Decode(more)
            case None => None
            case Some(layers) => Some([LayerRef(repo, stateId)] + layers)
  }

  lemma KeySplits(layers: seq<LayerRef>)
    requires layers != []
    ensures KeyOf(layers) == if |layers| == 1 then Part(layers[0]) else Part(layers[0]) + [UNIT] + KeyOf(layers[1..])
  {
    assert Parts(layers)[0] == Part(layers[0]) && Parts(layers)[1..] == Parts(layers[1..]);
  }

  lemma KeyNotEmpty(layers: seq<LayerRef>)
    requires layers != []
    ensures KeyOf(layers) != ""
  {
    KeySplits(layers);
    assert |Part(layers[0])| > 0;
  }

  lemma DecodeOne(l: LayerRef)
    requires RefOk(l)
    ensures Decode(Part(l)) == Some([l])
  {
    CutAt(l.repo, NUL, l.stateId);
    CutNone(l.stateId, UNIT);
  }

  lemma DecodeMore(l: LayerRef, tail: string, layers: seq<LayerRef>)
    requires RefOk(l) && tail != "" && Decode(tail) == Some(layers)
    ensures Decode(Part(l) + [UNIT] + tail) == Some([l] + layers)
  {
    var rest := l.stateId + [UNIT] + tail;
    assert Part(l) + [UNIT] + tail == l.repo + [NUL] + rest;
    CutAt(l.repo, NUL, rest);
    CutAt(l.stateId, UNIT, tail);
  }

  lemma {:induction false} DecodeKey(layers: seq<LayerRef>)
    requires forall l :: l in layers ==> RefOk(l)
    ensures Decode(KeyOf(layers)) == Some(layers)
  {
    if layers == [] {
      assert Parts(layers) == [];
    } else {
      var l, more := layers[0], layers[1..];
      assert RefOk(l);
      assert layers == [l] + more;
      KeySplits(layers);
      if more == [] {
        DecodeOne(l);
        assert layers == [l];
      } else {
        KeyNotEmpty(more);
        DecodeKey(more);
        DecodeMore(l, KeyOf(more), more);
      }
    }
  }

  /** Different stacks have different keys. */
  lemma KeyIsInjective(a: seq<LayerRef>, b: seq<LayerRef>)
    requires forall l :: l in a ==> RefOk(l)
    requires forall l :: l in b ==> RefOk(l)
    requires KeyOf(a) == KeyOf(b)
    ensures a == b
  {
    DecodeKey(a);
    DecodeKey(b);
  }
}
