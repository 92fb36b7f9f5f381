/** Domain names in DNS messages (RFC 1035 sections 2.3.4, 3.1 and 4.1.4). */
module DnsNames {
  import opened Types
  import opened Bytes

  /**
   * The labels `skip_name` walks over. RFC 1035 section 4.1.4 stops at 63 and
   * reserves the lengths from 64 to 191; the code takes those for lengths too.
   */
  type Label = s: seq<byte> | 1 <= |s| < 192 witness [0]

  type PointerOctet = b: byte | b >= 192 witness 192

  const DOT: byte := 0x2E

  datatype RecordType = A | Aaaa | Txt {
    function ToU16(): u16 {
      match this
      case A => 1
      case Aaaa => 28
      case Txt => 16
    }
  }

  datatype DnsClass = In | Cs | Ch | Hs {
    function ToU16(): u16 {
      match this
      case In => 1
      case Cs => 2
      case Ch => 3
      case Hs => 4
    }
  }

  // ---------------------------------------------------------------------------
  // Encoded names
  // ---------------------------------------------------------------------------

  /** How a name ends: with the root label, or with a pointer to the rest of it. */
  datatype NameEnd = Root | Pointer(high: PointerOctet, low: byte)

  datatype Name = Name(labels: seq<Label>, end: NameEnd)

  function LabelsSize(labels: seq<seq<byte>>): nat {
    if labels == [] then 0 else 1 + |labels[0]| + LabelsSize(labels[1..])
  }

  /** A length as an octet; `as u8` of a longer one drops the high bits. */
  function LengthOctet(n: nat): byte { if n < 256 then n else n % 256 }

  /** Each label behind its length. */
  function EncodeLabels(labels: seq<seq<byte>>): (w: seq<byte>)
    ensures |w| == LabelsSize(labels)
  {
    if labels == [] then [] else [LengthOctet(|labels[0]|)] + labels[0] + EncodeLabels(labels[1..])
  }

  function EncodeEnd(end: NameEnd): seq<byte> {
    match end
    case Root => [0]
    case Pointer(high, low) => [high, low]
  }

  function NameSize(n: Name): nat { LabelsSize(n.labels) + |EncodeEnd(n.end)| }

  function EncodeName(n: Name): (w: seq<byte>)
    ensures |w| == NameSize(n)
  {
    EncodeLabels(n.labels) + EncodeEnd(n.end)
  }

  // ---------------------------------------------------------------------------
  // Skipping a name
  // ---------------------------------------------------------------------------

  datatype NameError = InvalidNamePosition | UnexpectedEndOfName

  /** The two highest bits are set. */
  predicate IsPointer(b: byte) { b >= 192 }

  function SkipLabels(data: seq<byte>, pos: nat): Result<nat, NameError>
    decreases |data| - pos
  {
    if pos >= |data| then Failure(UnexpectedEndOfName)
    else if IsPointer(data[pos]) then Success(pos + 2)
    else if data[pos] == 0 then Success(pos + 1)
    else
      var len: nat := data[pos];
      SkipLabels(data, pos + 1 + len)
  }

  function SkipName(data: seq<byte>, pos: nat): Result<nat, NameError> {
    if pos >= |data| then Failure(InvalidNamePosition) else SkipLabels(data, pos)
  }

  method WalkName(data: seq<byte>, start: nat) returns (r: Result<nat, NameError>)
    ensures r == SkipName(data, start)
  {
    var pos := start;
    if pos >= |data| {
      return Failure(InvalidNamePosition);
    }
    while true
      invariant SkipName(data, start) == SkipLabels(data, pos)
      decreases |data| - pos
    {
      if pos >= |data| {
        return Failure(UnexpectedEndOfName);
      }
      var len := data[pos];
      ByteMasks(len);
      if BitAnd(len, 0xC0) == 0xC0 {
        return Success(pos + 2);
      }
      if len == 0 {
        return Success(pos + 1);
      }
      pos := pos + 1 + len;
    }
  }

  /** Success lies behind the start and at most one octet behind the data. */
  lemma {:induction false} SkipNameBounds(data: seq<byte>, pos: nat)
    requires SkipLabels(data, pos).Success?
    ensures pos < SkipLabels(data, pos).value <= |data| + 1
    ensures SkipLabels(data, pos).value == |data| + 1 ==> IsPointer(data[|data| - 1])
    decreases |data| - pos
  {
    if !IsPointer(data[pos]) && data[pos] != 0 {
      var len: nat := data[pos];
      SkipNameBounds(data, pos + 1 + len);
    }
  }

  /**
   * `n` is encoded at `pos`. The second octet of a pointer may lie behind the
   * data, because nobody looks at it.
   */
  ghost predicate NameAt(data: seq<byte>, pos: nat, n: Name) {
    && pos < |data|
    && (EncodeName(n) <= data[pos..] || (n.end.Pointer? && data[pos..] + [n.end.low] == EncodeName(n)))
  }

  lemma EncodeNameStep(n: Name)
    requires n.labels != []
    ensures EncodeName(n) == [|n.labels[0]|] + (n.labels[0] + EncodeName(n.(labels := n.labels[1..])))
  {
  }

  lemma EncodeEndOnly(n: Name)
    requires n.labels == []
    ensures EncodeName(n) == EncodeEnd(n.end) && NameSize(n) == |EncodeEnd(n.end)|
  {
  }

  /** A labelled prefix, taken apart. */
  lemma PrefixStep(w: seq<byte>, l: Label, tail: seq<byte>)
    ensures [|l|] + (l + tail) <= w <==>
      && 1 + |l| <= |w|
      && w[0] == |l|
      && w[1..1 + |l|] == l
      && tail <= w[1 + |l|..]
  {
    var v := [|l|] + (l + tail);
    assert v[0] == |l| && v[1..1 + |l|] == l && v[1 + |l|..] == tail;
    if 1 + |l| <= |w| {
      assert w == [w[0]] + (w[1..1 + |l|] + w[1 + |l|..]);
    }
    if v <= w {
      assert w[..|v|] == v;
      assert w[1..1 + |l|] == v[1..1 + |l|];
      assert w[1 + |l|..][..|tail|] == v[1 + |l|..];
    }
  }

  lemma {:induction false} EncodingIsSkipped(data: seq<byte>, pos: nat, n: Name)
    requires pos <= |data| && EncodeName(n) <= data[pos..]
    ensures SkipLabels(data, pos) == Success(pos + NameSize(n))
    decreases |n.labels|
  {
    if n.labels == [] {
      EncodeEndOnly(n);
    } else {
      var l := n.labels[0];
      var rest := n.(labels := n.labels[1..]);
      TakeLabel(data, pos, n);
      EncodingIsSkipped(data, pos + 1 + |l|, rest);
    }
  }

  lemma TakeLabel(data: seq<byte>, pos: nat, n: Name)
    requires pos <= |data| && n.labels != [] && EncodeName(n) <= data[pos..]
    ensures
      var l := n.labels[0];
      var rest := n.(labels := n.labels[1..]);
      && pos + 1 + |l| <= |data|
      && data[pos] == |l|
      && EncodeName(rest) <= data[pos + 1 + |l|..]
      && NameSize(n) == 1 + |l| + NameSize(rest)
  {
    var l := n.labels[0];
    EncodeNameStep(n);
    PrefixStep(data[pos..], l, EncodeName(n.(labels := n.labels[1..])));
    assert data[pos..][1 + |l|..] == data[pos + 1 + |l|..];
  }

  /** Octets behind a position where skipping succeeded make no difference. */
  lemma {:induction false} SkipLabelsIsLocal(data: seq<byte>, more: seq<byte>, pos: nat)
    requires SkipLabels(data, pos).Success?
    ensures SkipLabels(data + more, pos) == SkipLabels(data, pos)
    decreases |data| - pos
  {
    if !IsPointer(data[pos]) && data[pos] != 0 {
      var len: nat := data[pos];
      SkipLabelsIsLocal(data, more, pos + 1 + len);
    }
  }

  lemma {:induction false} EncodedLabelsInside(data: seq<byte>, pos: nat, n: Name)
    requires pos < |data| && n.end.Pointer? && data[pos..] + [n.end.low] == EncodeName(n)
    ensures SkipLabels(data, pos).Success?
    decreases |n.labels|
  {
    var w := data[pos..] + [n.end.low];
    assert w[0] == data[pos];
    if n.labels == [] {
      EncodeEndOnly(n);
    } else {
      var l := n.labels[0];
      var rest := n.(labels := n.labels[1..]);
      EncodeNameStep(n);
      PrefixStep(w, l, EncodeName(rest));
      var mid := pos + 1 + |l|;
      assert |EncodeName(rest)| >= 2;
      assert data[mid..] + [n.end.low] == w[1 + |l|..] == EncodeName(rest);
      EncodedLabelsInside(data, mid, rest);
    }
  }

  lemma NameIsSkipped(data: seq<byte>, pos: nat, n: Name)
    requires NameAt(data, pos, n)
    ensures SkipName(data, pos) == Success(pos + NameSize(n))
  {
    if EncodeName(n) <= data[pos..] {
      EncodingIsSkipped(data, pos, n);
    } else {
      var more := [n.end.low];
      assert (data + more)[pos..] == data[pos..] + more;
      EncodingIsSkipped(data + more, pos, n);
      EncodedLabelsInside(data, pos, n);
      SkipLabelsIsLocal(data, more, pos);
    }
  }

  lemma {:induction false} SkippedIsName(data: seq<byte>, pos: nat) returns (n: Name)
    requires SkipLabels(data, pos).Success?
    ensures NameAt(data, pos, n) && SkipLabels(data, pos).value == pos + NameSize(n)
    decreases |data| - pos
  {
    if IsPointer(data[pos]) || data[pos] == 0 {
      n := EndIsName(data, pos);
    } else {
      var len: nat := data[pos];
      var rest := SkippedIsName(data, pos + 1 + len);
      var l := data[pos + 1..pos + 1 + len];
      n := PutLabel(l, rest);
      LabelBeforeName(data, pos, l, rest);
    }
  }

  lemma EndIsName(data: seq<byte>, pos: nat) returns (n: Name)
    requires pos < |data| && (IsPointer(data[pos]) || data[pos] == 0)
    ensures NameAt(data, pos, n) && SkipLabels(data, pos) == Success(pos + NameSize(n))
  {
    n := Name([], if data[pos] == 0 then Root else Pointer(data[pos], if pos + 1 < |data| then data[pos + 1] else 0));
    EncodeEndOnly(n);
  }

  /** A name with one more label in front. */
  function PutLabel(l: Label, rest: Name): Name { rest.(labels := [l] + rest.labels) }

  lemma PutLabelEncodes(w: seq<byte>, l: Label, rest: Name)
    requires 1 + |l| <= |w| && w[0] == |l| && w[1..1 + |l|] == l
    ensures NameSize(PutLabel(l, rest)) == 1 + |l| + NameSize(rest)
    ensures EncodeName(PutLabel(l, rest)) <= w <==> EncodeName(rest) <= w[1 + |l|..]
  {
    var n := PutLabel(l, rest);
    assert n.labels[1..] == rest.labels;
    assert n.(labels := n.labels[1..]) == rest;
    EncodeNameStep(n);
    PrefixStep(w, l, EncodeName(rest));
  }

  lemma LabelBeforeName(data: seq<byte>, pos: nat, l: Label, rest: Name)
    requires pos < |data| && data[pos] == |l|
    requires NameAt(data, pos + 1 + |l|, rest)
    requires data[pos + 1..pos + 1 + |l|] == l
    ensures NameAt(data, pos, PutLabel(l, rest)) && NameSize(PutLabel(l, rest)) == 1 + |l| + NameSize(rest)
  {
    var mid := pos + 1 + |l|;
    var n := PutLabel(l, rest);
    if EncodeName(rest) <= data[mid..] {
      assert data[pos..][1 + |l|..] == data[mid..];
      PutLabelEncodes(data[pos..], l, rest);
    } else {
      var w := data[pos..] + [rest.end.low];
      assert w[1..1 + |l|] == l;
      assert w[1 + |l|..] == data[mid..] + [rest.end.low];
      PutLabelEncodes(w, l, rest);
      assert w[..|w|] == w;
    }
  }

  /** Skipping succeeds exactly where a name is encoded, and stops exactly where it ends. */
  lemma SkipNameExact(data: seq<byte>, pos: nat, next: nat)
    ensures SkipName(data, pos) == Success(next) <==> exists n :: NameAt(data, pos, n) && next == pos + NameSize(n)
  {
    if SkipName(data, pos) == Success(next) {
      var n := SkippedIsName(data, pos);
    }
    forall n | NameAt(data, pos, n) ensures SkipName(data, pos) == Success(pos + NameSize(n)) {
      NameIsSkipped(data, pos, n);
    }
  }

  lemma {:induction false} LabelsEndUnexpectedly(data: seq<byte>, pos: nat)
    requires SkipLabels(data, pos).Failure?
    ensures SkipLabels(data, pos).error == UnexpectedEndOfName
    decreases |data| - pos
  {
    if pos < |data| {
      var len: nat := data[pos];
      LabelsEndUnexpectedly(data, pos + 1 + len);
    }
  }

  /** Which error: the name does not start inside the data, or it does not end there. */
  lemma SkipNameErrors(data: seq<byte>, pos: nat)
    requires SkipName(data, pos).Failure?
    ensures SkipName(data, pos).error == if pos < |data| then UnexpectedEndOfName else InvalidNamePosition
  {
    if pos < |data| {
      LabelsEndUnexpectedly(data, pos);
    }
  }

  /** A name is skipped wherever its encoding stands. */
  lemma EncodedNameIsSkipped(before: seq<byte>, n: Name, after: seq<byte>)
    ensures SkipName(before + EncodeName(n) + after, |before|) == Success(|before| + NameSize(n))
  {
    var data := before + EncodeName(n) + after;
    assert data[|before|..] == EncodeName(n) + after;
    NameIsSkipped(data, |before|, n);
  }
}
