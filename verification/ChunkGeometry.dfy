/** How an attachment of `size` bytes is cut into chunks of `chunkSize` bytes. */
module ChunkGeometry {
  import opened Common

  datatype Layout = Layout(size: nat, chunkSize: nat) {
    predicate Valid() { chunkSize > 0 }

    /** Rounded-up division: the chunk count every validator demands. */
    function Count(): nat
      requires Valid()
    {
      (size + chunkSize - 1) / chunkSize
    }

    function Offset(index: nat): nat { index * chunkSize }

    /** `expected_chunk_size`, with its saturating subtraction. */
    function Length(index: nat): nat {
      if Offset(index) >= size then 0 else Min(chunkSize, size - Offset(index))
    }

    function End(index: nat): nat { Offset(index) + Length(index) }
  }

  lemma ProductOrder(a: nat, b: nat, d: nat)
    requires a <= b
    ensures a * d <= b * d
  {
  }

  lemma CountBounds(g: Layout)
    requires g.Valid()
    ensures (g.Count() - 1) * g.chunkSize < g.size <= g.Count() * g.chunkSize || g.size == g.Count() == 0
  {
    var n, c := g.size, g.chunkSize;
    var q := (n + c - 1) / c;
    assert n + c - 1 == q * c + (n + c - 1) % c;
    if n > 0 {
      assert (q - 1) * c == q * c - c;
    }
  }

  /** Every chunk the manifest announces is a non-empty interval inside the file. */
  lemma ChunkInside(g: Layout, index: nat)
    requires g.Valid() && index < g.Count()
    ensures 0 < g.Length(index) <= g.chunkSize && g.End(index) <= g.size
    ensures index + 1 < g.Count() ==> g.End(index) == g.Offset(index + 1)
    ensures index + 1 == g.Count() ==> g.End(index) == g.size
  {
    CountBounds(g);
    ProductOrder(index, g.Count() - 1, g.chunkSize);
    assert (index + 1) * g.chunkSize == index * g.chunkSize + g.chunkSize;
    if index + 1 < g.Count() {
      ProductOrder(index + 1, g.Count() - 1, g.chunkSize);
    }
  }

  /** The chunk that holds byte `at`. */
  function Holder(g: Layout, at: nat): nat
    requires g.Valid()
  {
    at / g.chunkSize
  }

  lemma HolderHolds(g: Layout, at: nat)
    requires g.Valid() && at < g.size
    ensures Holder(g, at) < g.Count()
    ensures g.Offset(Holder(g, at)) <= at < g.End(Holder(g, at))
  {
    var h, c, n := Holder(g, at), g.chunkSize, g.Count();
    assert h * c <= at < h * c + c;
    CountBounds(g);
    hide *;
    if n <= h { ProductOrder(n, h, c); }
  }

  lemma OrderedChunksAreApart(g: Layout, i: nat, j: nat)
    requires g.Valid() && i < j
    ensures g.End(i) <= g.Offset(j)
  {
    ProductOrder(i + 1, j, g.chunkSize);
    assert (i + 1) * g.chunkSize == i * g.chunkSize + g.chunkSize;
  }

  /** The chunk intervals partition [0, size): each byte is in exactly one of them. */
  lemma Partition(g: Layout, at: nat, index: nat)
    requires g.Valid() && at < g.size && index < g.Count()
    ensures Holder(g, at) < g.Count()
    ensures g.Offset(index) <= at < g.End(index) <==> index == Holder(g, at)
  {
    hide *;
    HolderHolds(g, at);
    var h := Holder(g, at);
    if index < h { OrderedChunksAreApart(g, index, h); }
    if h < index { OrderedChunksAreApart(g, h, index); }
  }

  function TotalLength(g: Layout, n: nat): nat {
    if n == 0 then 0 else TotalLength(g, n - 1) + g.Length(n - 1)
  }

  /** The expected sizes add up to the offset reached, and over the whole file to its size. */
  lemma {:induction false} TotalLengthIs(g: Layout, n: nat)
    requires g.Valid() && n <= g.Count()
    ensures TotalLength(g, n) == if n == g.Count() then g.size else g.Offset(n)
  {
    if n > 0 {
      TotalLengthIs(g, n - 1);
      ChunkInside(g, n - 1);
    } else {
      CountBounds(g);
    }
  }

  /** What the sender puts into frame `index`. */
  function Slice(g: Layout, data: seq<Byte>, index: nat): seq<Byte>
    requires g.Valid() && |data| == g.size && index < g.Count()
  {
    ChunkInside(g, index);
    data[g.Offset(index)..g.End(index)]
  }

  /** A file is determined by its chunks. */
  lemma ChunksDetermine(g: Layout, a: seq<Byte>, b: seq<Byte>)
    requires g.Valid() && |a| == |b| == g.size
    requires forall i :: 0 <= i < g.Count() ==> Slice(g, a, i) == Slice(g, b, i)
    ensures a == b
  {
    forall at | 0 <= at < g.size
      ensures a[at] == b[at]
    {
      var h := Holder(g, at);
      HolderHolds(g, at);
      ChunkInside(g, h);
      assert Slice(g, a, h)[at - g.Offset(h)] == Slice(g, b, h)[at - g.Offset(h)];
    }
  }
}
