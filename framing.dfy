/** Framing of the bulk wire format: each operation is a header line and a
    document line, each ended by a newline, and a finished body ends with
    one more newline. */
module Framing {
  import opened Types

  /** `bytes.Join`: the parts in order with `sep` between neighbours. */
  function Join(parts: seq<bytes>, sep: bytes): bytes
    decreases |parts|
  {
    if |parts| == 0 then []
    else if |parts| == 1 then parts[0]
    else parts[0] + sep + Join(parts[1..], sep)
  }

  /** The serialized header and document of one operation. */
  datatype Framed = Framed(header: bytes, document: bytes)

  /** The bytes `Add` writes for one operation: the header, the document and
      an empty final part joined by newlines. Joining the three parts puts a
      newline after each of the first two and nothing else. */
  function Record(f: Framed): (r: bytes)
    ensures r == f.header + [Newline] + f.document + [Newline]
  {
    var parts := [f.header, f.document, []];
    assert parts[1..][1..] == [[]];
    assert Join(parts[1..], [Newline]) == f.document + [Newline] + [];
    Join(parts, [Newline])
  }

  /** The records of several operations, one after another. */
  function Records(fs: seq<Framed>): bytes
    decreases |fs|
  {
    if |fs| == 0 then [] else Record(fs[0]) + Records(fs[1..])
  }

  /** Sum of the record lengths of several operations. */
  function RecordsLength(fs: seq<Framed>): nat
    decreases |fs|
  {
    if |fs| == 0 then 0 else |fs[0].header| + |fs[0].document| + 2 + RecordsLength(fs[1..])
  }

  lemma {:induction false} RecordsLengthIsLength(fs: seq<Framed>)
    ensures |Records(fs)| == RecordsLength(fs)
    decreases |fs|
  {
    if |fs| > 0 {
      RecordsLengthIsLength(fs[1..]);
    }
  }

  /** Position of the first newline of `s`, or `|s|` when there is none. */
  function LineEnd(s: bytes): (k: nat)
    ensures k <= |s|
    ensures k < |s| ==> s[k] == Newline
    ensures NoNewline(s[..k])
    decreases |s|
  {
    if |s| == 0 || s[0] == Newline then 0
    else
      var k := 1 + LineEnd(s[1..]);
      assert s[..k] == [s[0]] + s[1..][..k - 1];
      k
  }

  /** The lines of `s`: each newline ends a line, and bytes after the last
      newline form a final line of their own. */
  function Lines(s: bytes): seq<bytes>
    decreases |s|
  {
    if |s| == 0 then []
    else
      var k := LineEnd(s);
      if k == |s| then [s] else [s[..k]] + Lines(s[k + 1..])
  }

  /** A newline-free line followed by a newline is one line of the result. */
  lemma LinesCons(line: bytes, rest: bytes)
    requires NoNewline(line)
    ensures Lines(line + [Newline] + rest) == [line] + Lines(rest)
  {
    var s := line + [Newline] + rest;
    var k := LineEnd(s);
    assert s[..|line|] == line;
    assert s[|line|] == Newline;
    assert s[..k] == line;
    assert s[k + 1..] == rest;
  }

  /** The lines of a body: header and document of every operation in order. */
  function LinesOf(fs: seq<Framed>): seq<bytes>
    decreases |fs|
  {
    if |fs| == 0 then [] else [fs[0].header, fs[0].document] + LinesOf(fs[1..])
  }

  predicate OneLineEach(fs: seq<Framed>) {
    forall i | 0 <= i < |fs| :: NoNewline(fs[i].header) && NoNewline(fs[i].document)
  }

  /** Splitting a finished body (the records and the final newline) into
      lines gives back every header and document, in order, and one empty
      line for the final newline. */
  lemma {:induction false} BodyLines(fs: seq<Framed>)
    requires OneLineEach(fs)
    ensures Lines(Records(fs) + [Newline]) == LinesOf(fs) + [[]]
    decreases |fs|
  {
    if |fs| == 0 {
      assert Records(fs) + [Newline] == [] + [Newline] + [];
      LinesCons([], []);
    } else {
      var f := fs[0];
      var tail := Records(fs[1..]) + [Newline];
      var second := f.document + [Newline] + tail;
      RecordsCons(fs);
      LinesCons(f.header, second);
      LinesCons(f.document, tail);
      OneLineEachTail(fs);
      BodyLines(fs[1..]);
      calc {
        Lines(Records(fs) + [Newline]);
        Lines(f.header + [Newline] + second);
        [f.header] + Lines(second);
        [f.header] + ([f.document] + Lines(tail));
        [f.header] + ([f.document] + (LinesOf(fs[1..]) + [[]]));
        { RegroupLines(f.header, f.document, LinesOf(fs[1..])); }
        ([f.header, f.document] + LinesOf(fs[1..])) + [[]];
        LinesOf(fs) + [[]];
      }
    }
  }

  lemma RegroupLines(h: bytes, d: bytes, ls: seq<bytes>)
    ensures [h] + ([d] + (ls + [[]])) == ([h, d] + ls) + [[]]
  {
    assert [h, d] == [h] + [d];
  }

  lemma OneLineEachTail(fs: seq<Framed>)
    requires |fs| > 0 && OneLineEach(fs)
    ensures OneLineEach(fs[1..])
  {
    forall i | 0 <= i < |fs[1..]|
      ensures NoNewline(fs[1..][i].header) && NoNewline(fs[1..][i].document)
    {
      assert fs[1..][i] == fs[i + 1];
    }
  }

  /** The first record of a body, split into its two lines. */
  lemma RecordsCons(fs: seq<Framed>)
    requires |fs| > 0
    ensures Records(fs) + [Newline]
            == fs[0].header + [Newline] + (fs[0].document + [Newline] + (Records(fs[1..]) + [Newline]))
  {
    var h, d, rest := fs[0].header, fs[0].document, Records(fs[1..]);
    assert Records(fs) == (h + [Newline] + d + [Newline]) + rest;
    Regroup(h, d, rest);
  }

  lemma Regroup(h: bytes, d: bytes, rest: bytes)
    ensures (h + [Newline] + d + [Newline]) + rest + [Newline]
            == h + [Newline] + (d + [Newline] + (rest + [Newline]))
  {
  }

  /** The header of the `i`-th operation is line `2i` and its document line `2i + 1`. */
  lemma {:induction false} LinesOfAt(fs: seq<Framed>, i: nat)
    requires i < |fs|
    ensures |LinesOf(fs)| == 2 * |fs|
    ensures LinesOf(fs)[2 * i] == fs[i].header
    ensures LinesOf(fs)[2 * i + 1] == fs[i].document
    decreases |fs|
  {
    if i == 0 {
      LinesOfLength(fs);
    } else {
      LinesOfAt(fs[1..], i - 1);
      LinesOfLength(fs);
    }
  }

  lemma {:induction false} LinesOfLength(fs: seq<Framed>)
    ensures |LinesOf(fs)| == 2 * |fs|
    decreases |fs|
  {
    if |fs| > 0 {
      LinesOfLength(fs[1..]);
    }
  }
}
