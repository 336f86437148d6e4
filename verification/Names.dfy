/** Domain names on the wire: section 3.1 of RFC 1035 labels, section 4.1.4 compression. */
module Names {
  import opened Base
  import opened Text

  const MAX_HOPS := 16

  // ---- writing ----

  /** `label.encode("ascii", "replace")`. */
  function Ascii(s: string): (bs: seq<byte>)
    ensures |bs| == |s|
  {
    seq(|s|, i requires 0 <= i < |s| => if s[i] < '\U{80}' then s[i] as int else 63)
  }

  /** `name.strip(".").split(".")`. */
  function LabelsOf(name: string): (labels: seq<string>)
    ensures |labels| > 0
  {
    Split(StripRight(StripLeft(name, '.'), '.'), '.')
  }

  predicate Encodable(labels: seq<string>) {
    forall l :: l in labels ==> |l| <= 255
  }

  /** Length, then label, for each label; without the closing zero. */
  function EncodeLabels(labels: seq<string>): seq<byte>
    requires Encodable(labels)
  {
    if labels == [] then [] else [|labels[0]|] + Ascii(labels[0]) + EncodeLabels(labels[1..])
  }

  /** The wire form of a name; None where a length does not fit an octet. */
  function EncodeName(name: string): Option<seq<byte>> {
    if Encodable(LabelsOf(name)) then Some(EncodeLabels(LabelsOf(name)) + [0]) else None
  }

  /** `encode_name`. */
  method WriteName(name: string) returns (r: Option<seq<byte>>)
    ensures r == EncodeName(name)
  {
    var out: seq<byte> := [];
    var labels := LabelsOf(name);
    for i := 0 to |labels|
      invariant forall j :: 0 <= j < i ==> |labels[j]| <= 255
      invariant Encodable(labels[..i]) && out == EncodeLabels(labels[..i])
    {
      if |labels[i]| > 255 {
        assert labels[i] in labels;
        return None;
      }
      EncodeStep(labels, i);
      out := out + [|labels[i]|] + Ascii(labels[i]);
    }
    assert labels[..|labels|] == labels;
    return Some(out + [0]);
  }

  lemma EncodeStep(labels: seq<string>, i: nat)
    requires i < |labels| && Encodable(labels[..i]) && |labels[i]| <= 255
    ensures Encodable(labels[..i + 1])
    ensures EncodeLabels(labels[..i + 1]) == EncodeLabels(labels[..i]) + [|labels[i]|] + Ascii(labels[i])
  {
    assert labels[..i + 1] == labels[..i] + [labels[i]];
    EncodeAppend(labels[..i], labels[i]);
  }

  lemma {:induction false} EncodeAppend(a: seq<string>, l: string)
    requires Encodable(a) && |l| <= 255
    ensures Encodable(a + [l])
    ensures EncodeLabels(a + [l]) == EncodeLabels(a) + [|l|] + Ascii(l)
  {
    if a == [] {
      assert [] + [l] == [l] && [l][1..] == [];
    } else {
      assert (a + [l])[1..] == a[1..] + [l];
      EncodeAppend(a[1..], l);
      var head := [|a[0]|] + Ascii(a[0]);
      assert head + (EncodeLabels(a[1..]) + [|l|] + Ascii(l)) == head + EncodeLabels(a[1..]) + [|l|] + Ascii(l);
    }
  }

  /** A name takes at most two octets more on the wire than it has characters. */
  lemma EncodedLength(name: string)
    requires EncodeName(name).Some?
    ensures |EncodeName(name).value| <= |name| + 2
  {
    SplitLength(StripRight(StripLeft(name, '.'), '.'));
  }

  lemma {:induction false} SplitLength(s: string)
    requires Encodable(Split(s, '.'))
    ensures |EncodeLabels(Split(s, '.'))| == |s| + 1
  {
    if s != "" {
      var rest := Split(s[1..], '.');
      var all := Split(s, '.');
      if s[0] == '.' {
        assert all[1..] == rest;
        assert forall l :: l in rest ==> l in all;
        SplitLength(s[1..]);
      } else {
        assert all[0] == [s[0]] + rest[0] && all[1..] == rest[1..];
        assert all[0] in all && forall l :: l in rest[1..] ==> l in all[1..];
        assert rest == [rest[0]] + rest[1..];
        SplitLength(s[1..]);
      }
    }
  }

  /** Characters a name keeps: ASCII, and not capital. */
  predicate Plain(s: string) {
    forall i :: 0 <= i < |s| ==> s[i] < '\U{80}' && Lower(s[i]) == s[i]
  }

  // ---- reading ----

  datatype NameRead = Malformed | Labels(labels: seq<seq<byte>>, next: nat)

  /** The masks `read_name` tests an octet with, as comparisons. */
  lemma MaskTests(b: bv8)
    ensures b & 0xC0 == 0xC0 <==> b >= 0xC0
    ensures b & 0xC0 != 0 <==> b >= 0x40
    ensures b >= 0xC0 ==> b & 0x3F == b - 0xC0
  {
  }

  /** The offset a pointer names: the low six bits of its first octet, then the second. */
  function Pointer(hi: byte, lo: byte): nat
    requires hi >= 0xC0
  {
    var high: int := hi - 0xC0;
    high * 256 + lo
  }

  /** The labels at `off`, and where the name ends. A pointer must go backwards, and at most
      16 of them are followed: the hops left, then the bytes left, decrease, although after a
      jump the labels may run forward into the same pointer again. */
  function ReadLabels(data: seq<byte>, off: nat, hops: nat): NameRead
    requires hops <= MAX_HOPS
    decreases MAX_HOPS - hops, |data| - off
  {
    if off >= |data| then Malformed
    else
      var n := data[off];
      if n == 0 then Labels([], off + 1)
      else if n >= 0xC0 then
        if off + 1 >= |data| then Malformed
        else
          var ptr := Pointer(n, data[off + 1]);
          if ptr >= off || hops + 1 > MAX_HOPS then Malformed
          else
            match ReadLabels(data, ptr, hops + 1)
            case Malformed => Malformed
            case Labels(ls, _) => Labels(ls, off + 2)
      else if n >= 0x40 then Malformed
      else if off + 1 + n >= |data| then Malformed
      else
        match ReadLabels(data, off + 1 + n, hops)
        case Malformed => Malformed
        case Labels(ls, next) => Labels([data[off + 1..off + 1 + n]] + ls, next)
  }

  /** `.decode("ascii", "replace")`. */
  function Decoded(bs: seq<byte>): (s: string)
    ensures |s| == |bs|
  {
    seq(|bs|, i requires 0 <= i < |bs| => if bs[i] < 0x80 then bs[i] as char else '\U{FFFD}')
  }

  function DecodedAll(labels: seq<seq<byte>>): (r: seq<string>)
    ensures |r| == |labels|
  {
    seq(|labels|, i requires 0 <= i < |labels| => Decoded(labels[i]))
  }

  /** `".".join(labels).lower()`. */
  function NameText(labels: seq<seq<byte>>): string {
    Lowered(Join(DecodedAll(labels), '.'))
  }

  datatype NameResult = BadName | Name(text: string, next: nat)

  function NameAt(data: seq<byte>, off: nat): NameResult {
    match ReadLabels(data, off, 0)
    case Malformed => BadName
    case Labels(ls, next) => Name(NameText(ls), next)
  }

  /** What has been read so far, in front of what is left to read. */
  function Resume(labels: seq<seq<byte>>, end: Option<nat>, rest: NameRead): NameRead {
    match rest
    case Malformed => Malformed
    case Labels(ls, next) => Labels(labels + ls, if end.Some? then end.value else next)
  }

  lemma ResumeTwice(a: seq<seq<byte>>, e: Option<nat>, b: seq<seq<byte>>, f: Option<nat>, rest: NameRead)
    ensures Resume(a, e, Resume(b, f, rest)) == Resume(a + b, if e.Some? then e else f, rest)
  {
    if rest.Labels? {
      assert a + (b + rest.labels) == (a + b) + rest.labels;
    }
  }

  lemma LabelStep(data: seq<byte>, off: nat, hops: nat)
    requires hops <= MAX_HOPS && off < |data| && 0 < data[off] < 0x40
    ensures var n := data[off];
            if off + 1 + n >= |data| then ReadLabels(data, off, hops) == ReadLabels(data, off + 1 + n, hops) == Malformed
            else ReadLabels(data, off, hops) == Resume([data[off + 1..off + 1 + n]], None, ReadLabels(data, off + 1 + n, hops))
  {
  }

  lemma PointerStep(data: seq<byte>, off: nat, hops: nat)
    requires hops < MAX_HOPS && off + 1 < |data| && data[off] >= 0xC0 && Pointer(data[off], data[off + 1]) < off
    ensures ReadLabels(data, off, hops)
         == Resume([], Some(off + 2), ReadLabels(data, Pointer(data[off], data[off + 1]), hops + 1))
  {
    hide Pointer;
    var rest := ReadLabels(data, Pointer(data[off], data[off + 1]), hops + 1);
    if rest.Labels? {
      assert [] + rest.labels == rest.labels;
    }
  }

  /** Where the reading gives up. */
  predicate Stuck(data: seq<byte>, off: nat, hops: nat) {
    || off >= |data|
    || 0x40 <= data[off] < 0xC0
    || (data[off] >= 0xC0
        && (off + 1 >= |data| || Pointer(data[off], data[off + 1]) >= off || hops + 1 > MAX_HOPS))
  }

  lemma StuckStep(data: seq<byte>, off: nat, hops: nat, labels: seq<seq<byte>>, end: Option<nat>)
    requires hops <= MAX_HOPS && Stuck(data, off, hops)
    ensures Resume(labels, end, ReadLabels(data, off, hops)) == Malformed
  {
    hide Pointer;
  }

  lemma ZeroStep(data: seq<byte>, off: nat, hops: nat, labels: seq<seq<byte>>, end: Option<nat>)
    requires hops <= MAX_HOPS && off < |data| && data[off] == 0
    ensures Resume(labels, end, ReadLabels(data, off, hops)) == Labels(labels, if end.Some? then end.value else off + 1)
  {
    assert labels + [] == labels;
  }

  /** `read_name`. */
  method ReadName(data: seq<byte>, start: nat) returns (r: NameResult)
    ensures r == NameAt(data, start)
  {
    var off: nat, hops: nat, end: Option<nat> := start, 0, None;
    var labels: seq<seq<byte>> := [];
    ResumeNothing(ReadLabels(data, start, 0));
    hide NameText, Pointer, ReadLabels, Resume;
    while true
      invariant hops <= MAX_HOPS
      invariant ReadLabels(data, start, 0) == Resume(labels, end, ReadLabels(data, off, hops))
      decreases MAX_HOPS - hops, |data| - off
    {
      if Stuck(data, off, hops) {
        StuckStep(data, off, hops, labels, end);
        return BadName;
      }
      var n := data[off];
      if n == 0 {
        ZeroStep(data, off, hops, labels, end);
        off := off + 1;
        break;
      }
      if n >= 0xC0 {
        var ptr := Pointer(n, data[off + 1]);
        PointerStep(data, off, hops);
        ResumeTwice(labels, end, [], Some(off + 2), ReadLabels(data, ptr, hops + 1));
        assert labels + [] == labels;
        hops := hops + 1;
        if end.None? { end := Some(off + 2); }
        off := ptr;
        continue;
      }
      // a label cut short by the end of the packet is followed by nothing: the next turn fails
      LabelStep(data, off, hops);
      var one := data[off + 1..if off + 1 + n <= |data| then off + 1 + n else |data|];
      if off + 1 + n >= |data| {
        StuckStep(data, off + 1 + n, hops, labels, end);
        StuckStep(data, off + 1 + n, hops, labels + [one], end);
      } else {
        ResumeTwice(labels, end, [one], None, ReadLabels(data, off + 1 + n, hops));
      }
      labels := labels + [one];
      off := off + 1 + n;
    }
    return Name(NameText(labels), if end.Some? then end.value else off);
  }

  lemma ResumeNothing(rest: NameRead)
    ensures Resume([], None, rest) == rest
  {
    if rest.Labels? {
      assert [] + rest.labels == rest.labels;
    }
  }

  // ---- what reading guarantees ----

  predicate WholeLabel(l: seq<byte>) {
    1 <= |l| <= 63
  }

  /** A name that reads has only whole labels, and reading it moves forward inside the packet. */
  lemma {:induction false} ReadAdvances(data: seq<byte>, off: nat, hops: nat)
    requires hops <= MAX_HOPS && ReadLabels(data, off, hops).Labels?
    ensures off < ReadLabels(data, off, hops).next <= |data|
    ensures forall l :: l in ReadLabels(data, off, hops).labels ==> WholeLabel(l)
    decreases MAX_HOPS - hops, |data| - off
  {
    var n := data[off];
    if n >= 0xC0 {
      ReadAdvances(data, Pointer(n, data[off + 1]), hops + 1);
    } else if n != 0 {
      ReadAdvances(data, off + 1 + n, hops);
    }
  }

  /** Cutting the packet short never changes a name that still reads, compressed or not. */
  lemma {:induction false} ReadSurvivesMore(data: seq<byte>, k: nat, off: nat, hops: nat)
    requires hops <= MAX_HOPS && k <= |data| && ReadLabels(data[..k], off, hops).Labels?
    ensures ReadLabels(data, off, hops) == ReadLabels(data[..k], off, hops)
    decreases MAX_HOPS - hops, k - off
  {
    var n := data[off];
    if n >= 0xC0 {
      ReadSurvivesMore(data, k, Pointer(n, data[off + 1]), hops + 1);
    } else if n != 0 {
      ReadSurvivesMore(data, k, off + 1 + n, hops);
      assert data[..k][off + 1..off + 1 + n] == data[off + 1..off + 1 + n];
    }
  }

  /** A label that runs into a pointer back to itself is a loop the hop limit ends. */
  lemma {:induction false} LoopIsMalformed(hops: nat)
    requires hops <= MAX_HOPS
    ensures ReadLabels([1, 97, 0xC0, 0], 0, hops) == Malformed
    decreases MAX_HOPS - hops
  {
    var data: seq<byte> := [1, 97, 0xC0, 0];
    assert ReadLabels(data, 2, hops) == Malformed by {
      if hops < MAX_HOPS {
        LoopIsMalformed(hops + 1);
      }
    }
  }

  // ---- round trip ----

  /** `e` stands at `off` in `data`. */
  predicate At(data: seq<byte>, off: nat, e: seq<byte>) {
    off + |e| <= |data| && data[off..off + |e|] == e
  }

  predicate Proper(labels: seq<string>) {
    forall l :: l in labels ==> 1 <= |l| <= 63
  }

  function AsciiAll(labels: seq<string>): (r: seq<seq<byte>>)
    ensures |r| == |labels|
  {
    seq(|labels|, i requires 0 <= i < |labels| => Ascii(labels[i]))
  }

  lemma AtParts(data: seq<byte>, off: nat, a: seq<byte>, b: seq<byte>)
    requires At(data, off, a + b)
    ensures At(data, off, a) && At(data, off + |a|, b)
  {
    assert data[off..off + |a|] == data[off..off + |a + b|][..|a|];
    assert data[off + |a|..off + |a + b|] == data[off..off + |a + b|][|a|..];
  }

  lemma EncodeHead(labels: seq<string>)
    requires labels != [] && Encodable(labels)
    ensures Encodable(labels[1..])
    ensures EncodeLabels(labels) + [0] == [|labels[0]|] + (Ascii(labels[0]) + (EncodeLabels(labels[1..]) + [0]))
  {
  }

  /** The first label of an encoded name, and the rest of it, in the packet. */
  lemma HeadAt(labels: seq<string>, data: seq<byte>, off: nat)
    requires labels != [] && Encodable(labels) && At(data, off, EncodeLabels(labels) + [0])
    ensures Encodable(labels[1..])
    ensures off + 1 + |labels[0]| < |data| && data[off] == |labels[0]|
    ensures data[off + 1..off + 1 + |labels[0]|] == Ascii(labels[0])
    ensures At(data, off + 1 + |labels[0]|, EncodeLabels(labels[1..]) + [0])
    ensures |EncodeLabels(labels)| == 1 + |labels[0]| + |EncodeLabels(labels[1..])|
  {
    EncodeHead(labels);
    hide EncodeLabels, Ascii;
    var l, tail := labels[0], EncodeLabels(labels[1..]) + [0];
    AtParts(data, off, [|l|], Ascii(l) + tail);
    AtParts(data, off + 1, Ascii(l), tail);
    assert data[off] == data[off..off + 1][0];
  }

  lemma ZeroAt(data: seq<byte>, off: nat)
    requires At(data, off, EncodeLabels([]) + [0])
    ensures off < |data| && data[off] == 0 && |EncodeLabels([])| == 0
  {
    assert data[off] == data[off..off + 1][0];
  }

  lemma {:induction false} LabelsRoundTrip(labels: seq<string>, data: seq<byte>, off: nat, hops: nat)
    requires hops <= MAX_HOPS && Proper(labels)
    requires At(data, off, EncodeLabels(labels) + [0])
    ensures ReadLabels(data, off, hops) == Labels(AsciiAll(labels), off + |EncodeLabels(labels)| + 1)
    decreases |labels|
  {
    hide EncodeLabels, At, Ascii, AsciiAll;
    if labels == [] {
      ZeroAt(data, off);
      AsciiAllHead(labels);
    } else {
      var l, rest := labels[0], labels[1..];
      HeadAt(labels, data, off);
      LabelsRoundTrip(rest, data, off + 1 + |l|, hops);
      AsciiAllHead(labels);
    }
  }

  lemma AsciiAllHead(labels: seq<string>)
    ensures AsciiAll(labels) == if labels == [] then [] else [Ascii(labels[0])] + AsciiAll(labels[1..])
  {
  }

  /** What a name becomes on its way over the wire: no outer dots, lower case, and `?` for
      each character ASCII has not. */
  function Normal(name: string): string {
    NameText(AsciiAll(LabelsOf(name)))
  }

  /** A plain name without outer dots arrives as it is. */
  lemma PlainIsNormal(name: string)
    requires Plain(name) && name != "" && name[0] != '.' && name[|name| - 1] != '.'
    ensures Normal(name) == name
  {
    var labels := LabelsOf(name);
    assert labels == Split(name, '.');
    PlainLabels(name);
    DecodedAscii(labels);
    JoinSplit(name, '.');
    assert Lowered(name) == name;
  }

  lemma {:induction false} PlainLabels(s: string)
    requires Plain(s)
    ensures forall l :: l in Split(s, '.') ==> Plain(l)
  {
    if s != "" {
      PlainLabels(s[1..]);
      var rest := Split(s[1..], '.');
      assert rest[0] in rest;
      assert Plain([s[0]] + rest[0]);
    }
  }

  lemma DecodedAscii(labels: seq<string>)
    requires forall l :: l in labels ==> Plain(l)
    ensures DecodedAll(AsciiAll(labels)) == labels
  {
    forall i | 0 <= i < |labels| ensures Decoded(Ascii(labels[i])) == labels[i] {
      assert labels[i] in labels;
    }
  }

  /** Writing a name and reading it back gives the name, and ends exactly where it ends, if
      and only if every one of its labels has 1 to 63 characters. */
  lemma NameRoundTripIff(name: string, data: seq<byte>, off: nat)
    requires EncodeName(name).Some? && At(data, off, EncodeName(name).value)
    ensures Proper(LabelsOf(name))
       <==> NameAt(data, off).Name? && NameAt(data, off).next == off + |EncodeName(name).value|
    ensures Proper(LabelsOf(name)) ==> NameAt(data, off) == Name(Normal(name), off + |EncodeName(name).value|)
  {
    var labels := LabelsOf(name);
    if Proper(labels) {
      LabelsRoundTrip(labels, data, off, 0);
    } else if ReadLabels(data, off, 0).Labels? && ReadLabels(data, off, 0).next == off + |EncodeName(name).value| {
      ExactOnlyIfProper(labels, data, off, 0);
    }
  }

  lemma {:induction false} ExactOnlyIfProper(labels: seq<string>, data: seq<byte>, off: nat, hops: nat)
    requires hops <= MAX_HOPS && Encodable(labels)
    requires At(data, off, EncodeLabels(labels) + [0])
    requires ReadLabels(data, off, hops).Labels?
    requires ReadLabels(data, off, hops).next == off + |EncodeLabels(labels)| + 1
    ensures Proper(labels)
    decreases |labels|
  {
    hide EncodeLabels, At, Ascii;
    if labels != [] {
      var l, rest := labels[0], labels[1..];
      HeadAt(labels, data, off);
      assert labels == [l] + rest;
      if 1 <= |l| <= 63 {
        ExactOnlyIfProper(rest, data, off + 1 + |l|, hops);
      }
    }
  }
}
