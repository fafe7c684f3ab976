/** The circular data area of a perf mapping: a free-running head written by the kernel,
    a tail written by the reader, and the copy that straightens it out. */
module RingWindow {
  import opened Bytes

  datatype Ring = Ring(buf: seq<byte>, head: nat, tail: nat)

  /** Conversion of a `long long` to `int`. */
  function ToInt32(x: int): (r: int)
    ensures -0x8000_0000 <= r < 0x8000_0000
    ensures (x - r) % 0x1_0000_0000 == 0
    ensures -0x8000_0000 <= x < 0x8000_0000 ==> r == x
  {
    var u := x % 0x1_0000_0000;
    if u < 0x8000_0000 then u else u - 0x1_0000_0000
  }

  // ---- Modular indexing ----

  lemma Multiples(n: int, k: int)
    requires n >= 0
    ensures k >= 1 ==> n * k >= n
    ensures k <= -1 ==> n * k <= -n
  {
  }

  lemma ModUnique(a: int, n: nat, q: int, r: nat)
    requires a == n * q + r && r < n
    ensures a % n == r
  {
    assert n * (q - a / n) == a % n - r;
    Multiples(n, q - a / n);
  }

  lemma ModDistinct(p: nat, q: nat, n: nat)
    requires p < q < p + n
    ensures p % n != q % n
  {
    assert n * (q / n - p / n) == (q - q % n) - (p - p % n);
    Multiples(n, q / n - p / n);
  }

  lemma ModShift(prev: nat, k: nat, n: nat)
    requires k < n
    ensures var w := prev % n; (prev + k) % n == if w + k < n then w + k else w + k - n
  {
    var w := prev % n;
    assert prev == n * (prev / n) + w;
    if w + k < n {
      ModUnique(prev + k, n, prev / n, w + k);
    } else {
      assert n * (prev / n + 1) == n * (prev / n) + n;
      ModUnique(prev + k, n, prev / n + 1, w + k - n);
    }
  }

  // ---- The window ----

  /** Every stream position less than one buffer length behind the end is still there. */
  ghost predicate Holds(buf: seq<byte>, stream: seq<byte>)
    requires |buf| > 0
  {
    forall p :: 0 <= p < |stream| && |stream| - |buf| <= p ==> buf[p % |buf|] == stream[p]
  }

  ghost predicate Window(ring: Ring, stream: seq<byte>) {
    && |ring.buf| > 0
    && |stream| == ring.head
    && ring.tail <= ring.head <= ring.tail + |ring.buf|
    && Holds(ring.buf, stream)
  }

  // ---- The producer ----

  /** Bytes written one by one at free-running positions. */
  function Put(buf: seq<byte>, pos: nat, b: seq<byte>): (r: seq<byte>)
    requires |buf| > 0
    ensures |r| == |buf|
    decreases |b|
  {
    if b == [] then buf else Put(buf[pos % |buf| := b[0]], pos + 1, b[1..])
  }

  function Append(ring: Ring, b: seq<byte>): Ring
    requires |ring.buf| > 0
  {
    ring.(buf := Put(ring.buf, ring.head, b), head := ring.head + |b|)
  }

  /** The kernel does not overwrite unread data. */
  predicate Fits(ring: Ring, b: seq<byte>) {
    ring.head + |b| <= ring.tail + |ring.buf|
  }

  /** The cell of a ring of n bytes that a stream position falls on. */
  function Cell(n: nat, p: nat): nat
    requires n > 0
  {
    p % n
  }

  /** A record is taken whenever it can be: it is refused if and only if one of its bytes
      would fall on a byte not yet read, or on another of its own. */
  lemma FitsExact(ring: Ring, b: seq<byte>)
    requires |ring.buf| > 0 && ring.tail <= ring.head <= ring.tail + |ring.buf|
    ensures Fits(ring, b) <==>
            forall p, q :: ring.tail <= p < q < ring.head + |b| ==> Cell(|ring.buf|, p) != Cell(|ring.buf|, q)
  {
    var n := |ring.buf|;
    if Fits(ring, b) {
      forall p, q | ring.tail <= p < q < ring.head + |b| ensures Cell(n, p) != Cell(n, q) {
        ModDistinct(p, q, n);
      }
    } else {
      ModShift(ring.tail, 0, n);
      ModUnique(ring.tail + n, n, ring.tail / n + 1, ring.tail % n);
      assert Cell(n, ring.tail) == Cell(n, ring.tail + n);
    }
  }

  lemma PutOne(buf: seq<byte>, stream: seq<byte>, x: byte)
    requires |buf| > 0 && Holds(buf, stream)
    ensures Holds(buf[|stream| % |buf| := x], stream + [x])
  {
    var n, h := |buf|, |stream|;
    forall p | 0 <= p < h && h + 1 - n <= p
      ensures p % n != h % n
    {
      ModDistinct(p, h, n);
    }
  }

  lemma {:induction false} PutHolds(buf: seq<byte>, stream: seq<byte>, b: seq<byte>)
    requires |buf| > 0 && Holds(buf, stream)
    ensures Holds(Put(buf, |stream|, b), stream + b)
    decreases |b|
  {
    if b == [] {
      assert stream + b == stream;
    } else {
      PutOne(buf, stream, b[0]);
      PutHolds(buf[|stream| % |buf| := b[0]], stream + [b[0]], b[1..]);
      assert stream + [b[0]] + b[1..] == stream + b;
    }
  }

  lemma AppendKeepsWindow(ring: Ring, stream: seq<byte>, b: seq<byte>)
    requires Window(ring, stream) && Fits(ring, b)
    ensures Window(Append(ring, b), stream + b)
  {
    PutHolds(ring.buf, stream, b);
  }

  // ---- The consumer's copy ----

  /** The two memcpys: from the wrapped start to the end, then from the beginning. */
  function Unwrap(buf: seq<byte>, prev: nat): (d: seq<byte>)
    requires |buf| > 0
    ensures |d| == |buf|
  {
    var w := prev % |buf|;
    buf[w..] + buf[..w]
  }

  /** The copy turns circular positions into linear ones. */
  lemma UnwrapIndex(buf: seq<byte>, prev: nat, k: nat)
    requires 0 <= k < |buf|
    ensures Unwrap(buf, prev)[k] == buf[(prev + k) % |buf|]
  {
    ModShift(prev, k, |buf|);
  }

  /** So the unread part of the ring comes out as the linear slice of the stream. */
  lemma UnwrapWindow(ring: Ring, stream: seq<byte>, prev: nat)
    requires Window(ring, stream) && ring.tail <= prev <= ring.head
    ensures At(Unwrap(ring.buf, prev), 0, stream[prev..])
  {
    var d := Unwrap(ring.buf, prev);
    var n := ring.head - prev;
    forall k | 0 <= k < n ensures d[k] == stream[prev + k] {
      UnwrapIndex(ring.buf, prev, k);
      assert stream[prev + k] == ring.buf[(prev + k) % |ring.buf|];
    }
    assert d[..n] == stream[prev..];
  }
}
