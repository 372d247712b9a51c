/**
 The bytes of the raw archive: message values, the lines the writer makes of
 them, what an interrupted write leaves behind, and the rows a line reader sees.
 */
module ArchiveBytes {

  type Byte = b: int | 0 <= b < 256

  const NEWLINE: Byte := 10

  /** One Kafka message, identified by its partition and offset. */
  datatype Message = Message(partition: nat, offset: nat, value: seq<Byte>)

  ghost predicate WellFormedValue(v: seq<Byte>) {
    v != [] && NEWLINE !in v
  }

  /** The line written for a message: its value, then a newline. */
  function LineOf(m: Message): seq<Byte> {
    m.value + [NEWLINE]
  }

  /** The first n bytes of a message's line. A fragment is torn unless it is the whole line. */
  datatype Frag = Frag(msg: Message, n: nat)

  /** The contents of one hour file, as the fragments appended to it. */
  type Content = seq<Frag>

  function Whole(m: Message): Frag {
    Frag(m, |m.value| + 1)
  }

  predicate WellFormedFrag(f: Frag) {
    && 1 <= f.n <= |f.msg.value| + 1
    && f.msg.value != []
    && NEWLINE !in f.msg.value
  }

  predicate WellFormed(c: Content) {
    forall i :: 0 <= i < |c| ==> WellFormedFrag(c[i])
  }

  function FragBytes(f: Frag): seq<Byte> {
    if f.n <= |LineOf(f.msg)| then LineOf(f.msg)[..f.n] else LineOf(f.msg)
  }

  function Bytes(c: Content): seq<Byte> {
    if c == [] then [] else Bytes(c[..|c|-1]) + FragBytes(c[|c|-1])
  }

  /** The pieces of b between newlines; the last piece is what follows the last newline. */
  function Split(b: seq<Byte>): (r: seq<seq<Byte>>)
    ensures |r| > 0
  {
    if b == [] then [[]]
    else
      var r := Split(b[..|b|-1]);
      var last := b[|b|-1];
      if last == NEWLINE then r + [[]] else r[..|r|-1] + [r[|r|-1] + [last]]
  }

  function NonBlank(pieces: seq<seq<Byte>>): (r: seq<seq<Byte>>)
  {
    if pieces == [] then []
    else NonBlank(pieces[..|pieces|-1]) + (if pieces[|pieces|-1] == [] then [] else [pieces[|pieces|-1]])
  }

  /** The rows of the line reader: one per physical line, blank lines dropped. */
  function Rows(b: seq<Byte>): seq<seq<Byte>> {
    NonBlank(Split(b))
  }

  function RowsOf(c: Content): multiset<seq<Byte>> {
    multiset(Rows(Bytes(c)))
  }

  /** value + newline occurs contiguously in b. */
  ghost predicate HoldsLine(b: seq<Byte>, m: Message) {
    exists i :: HoldsLineAt(b, m, i)
  }

  ghost predicate HoldsLineAt(b: seq<Byte>, m: Message, i: int) {
    0 <= i && i + |m.value| + 1 <= |b| && b[i..i + |m.value| + 1] == m.value + [10]
  }

  ghost predicate EndsWith(row: seq<Byte>, v: seq<Byte>) {
    |v| <= |row| && row[|row| - |v|..] == v
  }

  /** Some row carries the message's value whole: by itself, or after the torn line it was glued to. */
  ghost predicate HoldsRow(rows: multiset<seq<Byte>>, m: Message) {
    exists row :: row in rows && EndsWith(row, m.value)
  }

  // ----- the rows of a file, computed from its fragments

  /** Lines as the reader glues them: a torn fragment runs on into the next one. */
  function Glued(c: Content): (r: (seq<seq<Byte>>, seq<Byte>))
    requires WellFormed(c)
  {
    if c == [] then ([], [])
    else
      var (done, open) := Glued(c[..|c|-1]);
      var f := c[|c|-1];
      if f == Whole(f.msg) then (done + [open + f.msg.value], [])
      else (done, open + f.msg.value[..f.n])
  }

  function GluedRows(c: Content): seq<seq<Byte>>
    requires WellFormed(c)
  {
    var (done, open) := Glued(c);
    if open == [] then done else done + [open]
  }

  lemma {:induction false} SplitAppendPlain(b: seq<Byte>, v: seq<Byte>)
    requires NEWLINE !in v
    ensures Split(b + v) == Split(b)[..|Split(b)|-1] + [Split(b)[|Split(b)|-1] + v]
  {
    var r := Split(b);
    if v == [] {
      assert b + v == b;
      assert r[|r|-1] + v == r[|r|-1];
    } else {
      var w := v[..|v|-1];
      assert (b + v)[..|b + v|-1] == b + w;
      assert v[|v|-1] in v;
      SplitAppendPlain(b, w);
      assert r[|r|-1] + w + [v[|v|-1]] == r[|r|-1] + v by { assert w + [v[|v|-1]] == v; }
    }
  }

  lemma SplitAppendLine(b: seq<Byte>, v: seq<Byte>)
    requires NEWLINE !in v
    ensures Split(b + (v + [NEWLINE])) == Split(b)[..|Split(b)|-1] + [Split(b)[|Split(b)|-1] + v] + [[]]
  {
    var x := b + (v + [NEWLINE]);
    assert x[..|x|-1] == b + v;
    SplitAppendPlain(b, v);
  }

  lemma WholeBytes(f: Frag)
    requires WellFormedFrag(f)
    ensures f == Whole(f.msg) ==> FragBytes(f) == f.msg.value + [NEWLINE]
    ensures f != Whole(f.msg) ==> FragBytes(f) == f.msg.value[..f.n] && NEWLINE !in FragBytes(f)
  {
    if f != Whole(f.msg) {
      assert LineOf(f.msg)[..f.n] == f.msg.value[..f.n];
    }
  }

  /** What the splitter should find: the glued lines, with the open tail last. */
  ghost predicate IsGlued(c: Content, pieces: seq<seq<Byte>>)
    requires WellFormed(c)
  {
    pieces == Glued(c).0 + [Glued(c).1]
  }

  lemma SplitOneMore(b: Content, f: Frag)
    requires WellFormed(b) && WellFormedFrag(f) && WellFormed(b + [f]) && IsGlued(b, Split(Bytes(b)))
    ensures IsGlued(b + [f], Split(Bytes(b + [f])))
  {
    assert (b + [f])[..|b|] == b;
    WholeBytes(f);
    if f == Whole(f.msg) {
      SplitAppendLine(Bytes(b), f.msg.value);
    } else {
      SplitAppendPlain(Bytes(b), FragBytes(f));
    }
  }

  lemma {:induction false} SplitIsGlued(c: Content)
    requires WellFormed(c)
    ensures IsGlued(c, Split(Bytes(c)))
  {
    if c != [] {
      var b, f := c[..|c|-1], c[|c|-1];
      assert c == b + [f];
      SplitIsGlued(b);
      SplitOneMore(b, f);
    }
  }

  /** No glued line is blank. */
  lemma {:induction false} GluedLinesHold(c: Content)
    requires WellFormed(c)
    ensures forall i :: 0 <= i < |Glued(c).0| ==> Glued(c).0[i] != []
  {
    if c != [] {
      GluedLinesHold(c[..|c|-1]);
    }
  }

  lemma {:induction false} NonBlankKeeps(pieces: seq<seq<Byte>>)
    requires forall i :: 0 <= i < |pieces| ==> pieces[i] != []
    ensures NonBlank(pieces) == pieces
  {
    if pieces != [] {
      NonBlankKeeps(pieces[..|pieces|-1]);
    }
  }

  lemma NonBlankOneMore(done: seq<seq<Byte>>, open: seq<Byte>)
    ensures NonBlank(done + [open]) == NonBlank(done) + (if open == [] then [] else [open])
  {
    assert (done + [open])[..|done|] == done;
  }

  lemma NonBlankTail(done: seq<seq<Byte>>, open: seq<Byte>)
    requires forall i :: 0 <= i < |done| ==> done[i] != []
    ensures NonBlank(done + [open]) == if open == [] then done else done + [open]
  {
    NonBlankKeeps(done);
    NonBlankOneMore(done, open);
  }

  /** The reader's rows of any hour file, torn lines included. */
  lemma RowsAreGluedRows(c: Content)
    requires WellFormed(c)
    ensures Rows(Bytes(c)) == GluedRows(c)
  {
    SplitIsGlued(c);
    GluedLinesHold(c);
    NonBlankTail(Glued(c).0, Glued(c).1);
  }

  /** A file no crash has torn has exactly the message values as rows, in order. */
  lemma {:induction false} UntornRows(c: Content)
    requires WellFormed(c)
    requires forall i :: 0 <= i < |c| ==> c[i] == Whole(c[i].msg)
    ensures Rows(Bytes(c)) == seq(|c|, i requires 0 <= i < |c| => c[i].msg.value)
  {
    RowsAreGluedRows(c);
    UntornGlued(c);
  }

  lemma {:induction false} UntornGlued(c: Content)
    requires WellFormed(c)
    requires forall i :: 0 <= i < |c| ==> c[i] == Whole(c[i].msg)
    ensures Glued(c).0 == seq(|c|, i requires 0 <= i < |c| => c[i].msg.value)
    ensures Glued(c).1 == []
  {
    if c != [] {
      var b := c[..|c|-1];
      UntornGlued(b);
      assert [] + c[|c|-1].msg.value == c[|c|-1].msg.value;
    }
  }

  lemma {:induction false} WholeIsGlued(c: Content, m: Message)
    requires WellFormed(c) && Whole(m) in c
    ensures exists i :: 0 <= i < |Glued(c).0| && EndsWith(Glued(c).0[i], m.value)
  {
    var b := c[..|c|-1];
    var f := c[|c|-1];
    if f == Whole(m) {
      var (done, open) := Glued(b);
      assert EndsWith(open + m.value, m.value);
      assert Glued(c).0[|done|] == open + m.value;
    } else {
      assert Whole(m) in b;
      WholeIsGlued(b, m);
      var i :| 0 <= i < |Glued(b).0| && EndsWith(Glued(b).0[i], m.value);
      assert Glued(c).0[i] == Glued(b).0[i];
    }
  }

  /** A whole line survives the fold into rows, whatever was torn before it. */
  lemma WholeLineHasRow(c: Content, m: Message)
    requires WellFormed(c) && Whole(m) in c
    ensures HoldsRow(RowsOf(c), m)
  {
    WholeIsGlued(c, m);
    RowsAreGluedRows(c);
    var i :| 0 <= i < |Glued(c).0| && EndsWith(Glued(c).0[i], m.value);
    assert GluedRows(c)[i] == Glued(c).0[i];
    assert Glued(c).0[i] in Rows(Bytes(c));
  }

  /** A whole line stands contiguously among the bytes, whatever was torn before it. */
  lemma {:induction false} WholeLineIsHeld(c: Content, m: Message)
    requires WellFormed(c) && Whole(m) in c
    ensures HoldsLine(Bytes(c), m)
  {
    var b := c[..|c|-1];
    var f := c[|c|-1];
    if f == Whole(m) {
      assert FragBytes(f) == LineOf(m);
      assert HoldsLineAt(Bytes(c), m, |Bytes(b)|);
    } else {
      assert Whole(m) in b;
      WholeLineIsHeld(b, m);
      var i :| HoldsLineAt(Bytes(b), m, i);
      assert Bytes(c)[i..i + |LineOf(m)|] == Bytes(b)[i..i + |LineOf(m)|];
      assert HoldsLineAt(Bytes(c), m, i);
    }
  }
}
