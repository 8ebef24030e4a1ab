/** `ipfs cat`: a window over the concatenation of several files. */
module CatCommand {

  newtype byte = x: int | 0 <= x < 256

  datatype Node = File(data: seq<byte>) | Directory | Other | Unavailable

  datatype Error = GetFailed | IsDir | NotSupported

  datatype Result = Ok(readers: seq<seq<byte>>, length: nat) | Err(error: Error)

  function Concat(parts: seq<seq<byte>>): seq<byte> {
    if parts == [] then [] else Concat(parts[..|parts| - 1]) + parts[|parts| - 1]
  }

  lemma ConcatAppend(parts: seq<seq<byte>>, p: seq<byte>)
    ensures Concat(parts + [p]) == Concat(parts) + p
  {
    assert (parts + [p])[..|parts|] == parts;
  }

  function Drop(s: seq<byte>, n: nat): seq<byte> {
    if n < |s| then s[n..] else []
  }

  /** The reference: what is left after `offset` bytes, capped at `max` unless `max`
      is negative. */
  function Window(s: seq<byte>, offset: nat, max: int): seq<byte> {
    if 0 <= max < |Drop(s, offset)| then Drop(s, offset)[..max] else Drop(s, offset)
  }

  /** The contents of the files before the first node that is not a file. */
  function Leading(nodes: seq<Node>): seq<seq<byte>> {
    if nodes == [] || !nodes[0].File? then [] else [nodes[0].data] + Leading(nodes[1..])
  }

  lemma {:induction false} LeadingPrefix(nodes: seq<Node>, i: nat)
    requires i <= |nodes| && forall k :: 0 <= k < i ==> nodes[k].File?
    ensures |Leading(nodes)| >= i
    ensures i < |nodes| && nodes[i].File? ==> |Leading(nodes)| > i && Leading(nodes)[i] == nodes[i].data
    ensures i == |nodes| || !nodes[i].File? ==> |Leading(nodes)| == i
  {
    if i > 0 {
      LeadingPrefix(nodes[1..], i - 1);
    }
  }

  lemma {:induction false} ConcatPrefix(parts: seq<seq<byte>>, i: nat)
    requires i <= |parts|
    ensures Concat(parts[..i]) <= Concat(parts)
  {
    if i < |parts| {
      var init := parts[..|parts| - 1];
      ConcatPrefix(init, i);
      assert init[..i] == parts[..i];
    } else {
      assert parts[..i] == parts;
    }
  }

  /** Cutting the window short at a prefix that already fills it is harmless. */
  lemma WindowOfPrefix(p: seq<byte>, s: seq<byte>, offset: nat, max: nat)
    requires p <= s && |Drop(p, offset)| >= max > 0
    ensures Window(s, offset, max) == Window(p, offset, max)
  {
    assert Drop(p, offset) <= Drop(s, offset);
  }

  lemma DropSize(s: seq<byte>, n: nat)
    ensures |Drop(s, n)| == if n < |s| then |s| - n else 0
    ensures n <= |s| ==> Drop(s, n) == s[n..]
  {
  }

  lemma DropAppend(p: seq<byte>, d: seq<byte>, offset: nat)
    ensures offset <= |p| ==> Drop(p + d, offset) == Drop(p, offset) + d
    ensures |p| < offset ==> Drop(p + d, offset) == Drop(d, offset - |p|)
  {
  }

  ghost predicate Progress(nodes: seq<Node>, offset: nat, i: nat, off: nat, readers: seq<seq<byte>>, length: nat) {
    && i <= |nodes| && (forall k :: 0 <= k < i ==> nodes[k].File?)
    && |Leading(nodes)| >= i
    && var p := Concat(Leading(nodes)[..i]);
       && Concat(readers) == Drop(p, offset) && length == |Drop(p, offset)|
       && off == (if offset > |p| then offset - |p| else 0)
  }

  lemma ProgressStep(nodes: seq<Node>, offset: nat, i: nat, off: nat, readers: seq<seq<byte>>, length: nat)
    requires Progress(nodes, offset, i, off, readers, length) && i < |nodes| && nodes[i].File?
    ensures |Leading(nodes)| > i && Concat(Leading(nodes)[..i + 1]) <= Concat(Leading(nodes))
    ensures off > |nodes[i].data| ==> Progress(nodes, offset, i + 1, off - |nodes[i].data|, readers, length)
    ensures off <= |nodes[i].data| ==>
      Progress(nodes, offset, i + 1, 0, readers + [nodes[i].data[off..]], length + |nodes[i].data| - off)
  {
    hide Leading, Concat, Drop;
    var d := nodes[i].data;
    LeadingPrefix(nodes, i);
    var lead := Leading(nodes);
    assert lead[..i + 1] == lead[..i] + [d];
    ConcatAppend(lead[..i], d);
    ConcatPrefix(lead, i + 1);
    var p := Concat(lead[..i]);
    DropAppend(p, d, offset);
    DropSize(p, offset);
    DropSize(d, off);
    DropSize(p + d, offset);
    if off <= |d| {
      ConcatAppend(readers, d[off..]);
    }
  }

  /** The readers concatenate to the window of all files before the first node that
      is not one, and the length is its size. It fails exactly when such a node is
      reached before the window is full. */
  method Cat(nodes: seq<Node>, offset: nat, max: int) returns (res: Result)
    ensures res.Ok? ==>
      Concat(res.readers) == Window(Concat(Leading(nodes)), offset, max) && res.length == |Concat(res.readers)|
    ensures res.Err? <==>
      |Leading(nodes)| < |nodes| && max != 0 && (max < 0 || |Drop(Concat(Leading(nodes)), offset)| < max)
    ensures res.Err? ==> res.error == (match nodes[|Leading(nodes)|]
                                       case Directory => IsDir
                                       case Other => NotSupported
                                       case _ => GetFailed)
  {
    var readers: seq<seq<byte>>, length: nat := [], 0;
    if max == 0 {
      return Ok([], 0);
    }
    var off := offset;
    var i := 0;
    while i < |nodes|
      invariant Progress(nodes, offset, i, off, readers, length)
      invariant max > 0 ==> length < max
    {
      LeadingPrefix(nodes, i);
      var file: seq<byte>;
      match nodes[i] {
        case File(data) => file := data;
        case Directory =>
          assert Leading(nodes)[..i] == Leading(nodes);
          return Err(IsDir);
        case Other =>
          assert Leading(nodes)[..i] == Leading(nodes);
          return Err(NotSupported);
        case Unavailable =>
          assert Leading(nodes)[..i] == Leading(nodes);
          return Err(GetFailed);
      }
      ProgressStep(nodes, offset, i, off, readers, length);
      var fsize := |file|;
      if off > fsize {
        off := off - fsize;
        i := i + 1;
        continue;
      }
      var rest := file[off..];
      off := 0;
      var size := |rest|;
      length := length + size;
      if max > 0 && length >= max {
        ghost var p := Concat(Leading(nodes)[..i + 1]);
        WindowOfPrefix(p, Concat(Leading(nodes)), offset, max);
        ConcatAppend(readers, rest);
        var overshoot := length - max;
        if overshoot != 0 {
          rest := rest[..size - overshoot];
          length := max;
        }
        ConcatAppend(readers, rest);
        readers := readers + [rest];
        return Ok(readers, length);
      }
      readers := readers + [rest];
      i := i + 1;
    }
    LeadingPrefix(nodes, i);
    assert Leading(nodes)[..i] == Leading(nodes);
    return Ok(readers, length);
  }
}
