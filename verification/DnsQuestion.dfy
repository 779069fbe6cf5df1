/** The request builder of inf22-2/main.c: a DNS query for the address of a host. The decoder beside it
    follows sections 2.3.4, 3.1 and 4.1.2 of RFC 1035. */
module DnsQuestion {
  import opened Bytes

  const BUFFER_SIZE: nat := 8192
  const HEAD_SIZE: nat := 12
  const TALE_SIZE: nat := 5
  const DOT: Byte := 46

  /** The fixed header: one question, recursion desired. */
  const HEAD: seq<Byte> := [0xAA, 0xAA, 0x01, 0x00, 0x00, 0x01, 0x00, 0x00, 0x00, 0x00, 0x00, 0x00]

  /** The root label, type A and class IN. */
  const TALE: seq<Byte> := [0x00, 0x00, 0x01, 0x00, 0x01]

  // ---------------------------------------------------------------- labels

  lemma Associative<T>(a: seq<T>, b: seq<T>, c: seq<T>)
    ensures (a + b) + c == a + (b + c)
  {
  }

  /** The labels of `host` when `label` is what has been read of the first one. */
  function SplitFrom(part: seq<Byte>, host: seq<Byte>): (labels: seq<seq<Byte>>)
    ensures labels != []
    decreases |host|
  {
    if host == [] then [part]
    else if host[0] == DOT then [part] + SplitFrom([], host[1..])
    else SplitFrom(part + [host[0]], host[1..])
  }

  function Split(host: seq<Byte>): seq<seq<Byte>> { SplitFrom([], host) }

  function Join(labels: seq<seq<Byte>>, separator: Byte): seq<Byte>
    requires labels != []
  {
    if |labels| == 1 then labels[0] else labels[0] + [separator] + Join(labels[1..], separator)
  }

  lemma JoinFirst(l: seq<Byte>, labels: seq<seq<Byte>>, separator: Byte)
    requires labels != []
    ensures Join([l] + labels, separator) == l + [separator] + Join(labels, separator)
  {
    assert ([l] + labels)[1..] == labels;
  }

  /** Splitting loses nothing. */
  lemma {:induction false} JoinSplit(part: seq<Byte>, host: seq<Byte>)
    ensures Join(SplitFrom(part, host), 46) == part + host
    decreases |host|
  {
    if host != [] {
      assert host == [host[0]] + host[1..];
      if host[0] == DOT {
        JoinSplit([], host[1..]);
        JoinFirst(part, SplitFrom([], host[1..]), 46);
        assert part + [DOT] + ([] + host[1..]) == part + host;
      } else {
        JoinSplit(part + [host[0]], host[1..]);
        assert part + [host[0]] + host[1..] == part + host;
      }
    }
  }

  /** No label contains a dot. */
  ghost predicate DotFree(labels: seq<seq<Byte>>) {
    forall i :: 0 <= i < |labels| ==> 46 !in labels[i]
  }

  lemma {:induction false} SplitDotFree(part: seq<Byte>, host: seq<Byte>)
    requires 46 !in part
    ensures DotFree(SplitFrom(part, host))
    decreases |host|
  {
    if host != [] {
      SplitDotFree(if host[0] == DOT then [] else part + [host[0]], host[1..]);
    }
  }

  lemma {:induction false} SplitWithoutDot(part: seq<Byte>, host: seq<Byte>)
    requires DOT !in host
    ensures SplitFrom(part, host) == [part + host]
    decreases |host|
  {
    if host == [] {
      assert part + host == part;
    } else {
      SplitWithoutDot(part + [host[0]], host[1..]);
      assert part + [host[0]] + host[1..] == part + host;
    }
  }

  lemma SplitsTogether(host: seq<Byte>)
    requires DOT !in host
    ensures Split(host) == [host]
  {
    SplitWithoutDot([], host);
    assert [] + host == host;
  }

  /** A dot ends a label, whatever comes before it. */
  lemma {:induction false} SplitAtDot(part: seq<Byte>, a: seq<Byte>, b: seq<Byte>)
    ensures SplitFrom(part, a + [DOT] + b) == SplitFrom(part, a) + Split(b)
    decreases |a|
  {
    var host := a + [DOT] + b;
    if a == [] {
      assert host[1..] == b;
    } else {
      assert host[1..] == a[1..] + [DOT] + b;
      if a[0] == DOT {
        SplitAtDot([], a[1..], b);
        Associative([part], SplitFrom([], a[1..]), Split(b));
      } else {
        SplitAtDot(part + [a[0]], a[1..], b);
      }
    }
  }

  lemma {:induction false} SplitJoin(labels: seq<seq<Byte>>)
    requires labels != [] && DotFree(labels)
    ensures Split(Join(labels, 46)) == labels
    decreases |labels|
  {
    if |labels| == 1 {
      SplitsTogether(labels[0]);
      assert labels == [labels[0]];
    } else {
      var rest := labels[1..];
      SplitJoin(rest);
      SplitAtDot([], labels[0], Join(rest, 46));
      SplitsTogether(labels[0]);
      assert labels == [labels[0]] + rest;
    }
  }

  /** The labels of a host are the one way to write it as dot-free parts with dots between them. */
  lemma SplitIff(host: seq<Byte>, labels: seq<seq<Byte>>)
    ensures labels == Split(host)
            <==> labels != [] && (forall i :: 0 <= i < |labels| ==> 46 !in labels[i]) && Join(labels, 46) == host
  {
    SplitDotFree([], host);
    JoinSplit([], host);
    assert [] + host == host;
    if labels != [] && DotFree(labels) {
      SplitJoin(labels);
    }
  }

  function EncodeLabel(l: seq<Byte>): seq<Byte> { [(|l| % 256) as Byte] + l }

  function EncodeLabels(labels: seq<seq<Byte>>): seq<Byte> {
    if labels == [] then [] else EncodeLabel(labels[0]) + EncodeLabels(labels[1..])
  }

  lemma EncodeFirst(l: seq<Byte>, labels: seq<seq<Byte>>)
    ensures EncodeLabels([l] + labels) == EncodeLabel(l) + EncodeLabels(labels)
  {
    assert ([l] + labels)[1..] == labels;
  }

  lemma EncodeOne(l: seq<Byte>)
    ensures EncodeLabels([l]) == EncodeLabel(l)
  {
    EncodeFirst(l, []);
    assert [l] + [] == [l];
  }

  lemma {:induction false} EncodeSnoc(labels: seq<seq<Byte>>, l: seq<Byte>)
    ensures EncodeLabels(labels + [l]) == EncodeLabels(labels) + EncodeLabel(l)
    decreases |labels|
  {
    if labels == [] {
      EncodeOne(l);
      assert labels + [l] == [l];
    } else {
      assert labels + [l] == [labels[0]] + (labels[1..] + [l]);
      EncodeFirst(labels[0], labels[1..] + [l]);
      EncodeSnoc(labels[1..], l);
    }
  }

  /** The request as a whole. */
  function Request(host: seq<Byte>): seq<Byte> {
    HEAD + EncodeLabels(Split(host)) + TALE
  }

  lemma {:induction false} EncodedLength(part: seq<Byte>, host: seq<Byte>)
    ensures |EncodeLabels(SplitFrom(part, host))| == |part| + |host| + 1
    decreases |host|
  {
    if host == [] {
      assert EncodeLabels([part]) == EncodeLabel(part) + EncodeLabels([part][1..]);
    } else if host[0] == DOT {
      EncodedLength([], host[1..]);
      EncodeFirst(part, SplitFrom([], host[1..]));
    } else {
      EncodedLength(part + [host[0]], host[1..]);
    }
  }

  lemma RequestLength(host: seq<Byte>)
    ensures |Request(host)| == |host| + 18
  {
    EncodedLength([], host);
  }

  /** The bytes before the first dot. */
  function LabelLength(host: seq<Byte>): nat {
    if host == [] || host[0] == 46 then 0 else 1 + LabelLength(host[1..])
  }

  /** Byte `i` of a host with a length in the place of each dot. */
  function Packed(host: seq<Byte>, i: nat): Byte
    requires i < |host|
  {
    if host[i] == 46 then LabelLength(host[i + 1..]) % 256 else host[i]
  }

  lemma {:induction false} EncodedBytes(part: seq<Byte>, host: seq<Byte>)
    ensures var e := EncodeLabels(SplitFrom(part, host));
            && |e| == 1 + |part| + |host| && e[0] == (|part| + LabelLength(host)) % 256 && e[1..1 + |part|] == part
            && forall i :: 0 <= i < |host| ==> e[1 + |part| + i] == Packed(host, i)
    decreases |host|
  {
    EncodedLength(part, host);
    var e := EncodeLabels(SplitFrom(part, host));
    if host == [] {
      EncodeOne(part);
    } else {
      var rest := host[1..];
      assert forall i :: 0 < i < |host| ==> Packed(host, i) == Packed(rest, i - 1) by {
        assert forall i :: 0 < i < |host| ==> host[i + 1..] == rest[i..];
      }
      if host[0] == DOT {
        EncodedBytes([], rest);
        EncodeFirst(part, SplitFrom([], rest));
      } else {
        EncodedBytes(part + [host[0]], rest);
        assert e[1..1 + |part|] == e[1..2 + |part|][..|part|] == part;
        assert e[1 + |part|] == e[1..2 + |part|][|part|] == host[0];
      }
    }
  }

  /** Byte by byte: the header, the length of the first label, the host with each dot replaced by the length
      of the label behind it, and the root label with type and class. */
  lemma RequestBytes(host: seq<Byte>)
    ensures var r := Request(host);
            && |r| == |host| + 18
            && r[..12] == [0xAA, 0xAA, 0x01, 0x00, 0x00, 0x01, 0x00, 0x00, 0x00, 0x00, 0x00, 0x00]
            && r[12] == LabelLength(host) % 256
            && (forall i :: 0 <= i < |host| ==>
                  r[13 + i] == if host[i] == 46 then LabelLength(host[i + 1..]) % 256 else host[i])
            && r[13 + |host|..] == [0x00, 0x00, 0x01, 0x00, 0x01]
  {
    var none: seq<Byte> := [];
    EncodedBytes(none, host);
    var e := EncodeLabels(Split(host));
    assert forall i :: 0 <= i < |host| ==> e[1 + |none| + i] == Packed(host, i);
    assert forall i :: 0 <= i < |e| ==> Request(host)[12 + i] == e[i];
    forall i | 0 <= i < |host|
      ensures Request(host)[13 + i] == if host[i] == 46 then LabelLength(host[i + 1..]) % 256 else host[i] {
      assert Request(host)[12 + (1 + i)] == e[1 + |none| + i] == Packed(host, i);
    }
  }

  // ---------------------------------------------------------------- decoding

  datatype Name = Name(labels: seq<seq<Byte>>, rest: seq<Byte>) | Malformed

  /** A sequence of labels of 1 to 63 bytes, each behind its length, up to the root byte. */
  function DecodeName(bytes: seq<Byte>): Name
    decreases |bytes|
  {
    if bytes == [] then Malformed
    else if bytes[0] == 0 then Name([], bytes[1..])
    else if 63 < bytes[0] || |bytes| <= bytes[0] then Malformed
    else
      match DecodeName(bytes[1 + bytes[0]..])
      case Malformed => Malformed
      case Name(labels, rest) => Name([bytes[1..1 + bytes[0]]] + labels, rest)
  }

  /** The message of section 4.1 of RFC 1035, with one question and what follows it. */
  datatype Message =
    | Message(id: nat, response: bool, opcode: nat, authoritative: bool, truncated: bool, recursionDesired: bool,
              recursionAvailable: bool, reserved: nat, code: nat,
              questions: nat, answers: nat, authorities: nat, additionals: nat,
              labels: seq<seq<Byte>>, qtype: nat, qclass: nat, rest: seq<Byte>)
    | NoMessage

  function Word16(bytes: seq<Byte>, at: nat): nat
    requires at + 1 < |bytes|
  {
    256 * (bytes[at] as int) + bytes[at + 1]
  }

  /** Reads the header and the first question; names are at most 255 bytes long, lengths and root included. */
  function DecodeMessage(bytes: seq<Byte>): Message {
    if |bytes| < 12 then NoMessage
    else
      match DecodeName(bytes[12..])
      case Malformed => NoMessage
      case Name(labels, rest) =>
        if |rest| < 4 || 255 < |bytes| - 12 - |rest| then NoMessage
        else
          Message(Word16(bytes, 0),
                  bytes[2] / 128 == 1, bytes[2] / 8 % 16, bytes[2] / 4 % 2 == 1, bytes[2] / 2 % 2 == 1,
                  bytes[2] % 2 == 1, bytes[3] / 128 == 1, bytes[3] / 16 % 8, bytes[3] % 16,
                  Word16(bytes, 4), Word16(bytes, 6), Word16(bytes, 8), Word16(bytes, 10),
                  labels, Word16(rest, 0), Word16(rest, 2), rest[4..])
  }

  /** A standard query for the Internet address of a name, with recursion desired. */
  function Query(labels: seq<seq<Byte>>): Message {
    Message(0xAAAA, false, 0, false, false, true, false, 0, 0, 1, 0, 0, 0, labels, 1, 1, [])
  }

  ghost predicate ProperLabels(labels: seq<seq<Byte>>) {
    forall i :: 0 <= i < |labels| ==> 1 <= |labels[i]| <= 63
  }

  lemma DecodeFirst(l: seq<Byte>, tail: seq<Byte>)
    requires 1 <= |l| <= 63
    ensures DecodeName([|l| as Byte] + l + tail)
         == match DecodeName(tail)
            case Malformed => Malformed
            case Name(labels, rest) => Name([l] + labels, rest)
  {
    var bytes := [|l| as Byte] + l + tail;
    assert bytes[1..1 + |l|] == l && bytes[1 + |l|..] == tail;
  }

  lemma EncodedBefore(l: seq<Byte>, labels: seq<seq<Byte>>, rest: seq<Byte>)
    requires |l| < 256
    ensures EncodeLabels([l] + labels) + [0] + rest == [|l| as Byte] + l + (EncodeLabels(labels) + [0] + rest)
  {
    EncodeFirst(l, labels);
    assert EncodeLabel(l) == [|l| as Byte] + l;
  }

  lemma DecodeRoot(rest: seq<Byte>)
    ensures DecodeName(EncodeLabels([]) + [0] + rest) == Name([], rest)
  {
    var bytes := EncodeLabels([]) + [0] + rest;
    assert bytes[1..] == rest;
  }

  lemma {:induction false} DecodeEncoded(labels: seq<seq<Byte>>, rest: seq<Byte>)
    requires ProperLabels(labels)
    ensures DecodeName(EncodeLabels(labels) + [0] + rest) == Name(labels, rest)
    decreases |labels|
  {
    if labels == [] {
      DecodeRoot(rest);
    } else {
      assert labels == [labels[0]] + labels[1..];
      DecodeEncoded(labels[1..], rest);
      EncodedBefore(labels[0], labels[1..], rest);
      DecodeFirst(labels[0], EncodeLabels(labels[1..]) + [0] + rest);
    }
  }

  /** What decodes to a name is the encoding of its labels, and the labels are proper. */
  lemma {:induction false} DecodedIsEncoded(bytes: seq<Byte>)
    ensures DecodeName(bytes).Name? ==>
              var Name(labels, rest) := DecodeName(bytes);
              ProperLabels(labels) && bytes == EncodeLabels(labels) + [0] + rest
    decreases |bytes|
  {
    if bytes != [] && bytes[0] == 0 {
      assert bytes == [0] + bytes[1..];
    } else if bytes != [] && bytes[0] <= 63 && bytes[0] < |bytes| {
      var first, tail := bytes[1..1 + bytes[0]], bytes[1 + bytes[0]..];
      DecodedIsEncoded(tail);
      if DecodeName(tail).Name? {
        var Name(labels, rest) := DecodeName(tail);
        EncodedBefore(first, labels, rest);
        assert bytes == [bytes[0]] + first + tail;
      }
    }
  }

  // ---------------------------------------------------------------- injectivity

  ghost predicate ByteLabels(labels: seq<seq<Byte>>) {
    forall i :: 0 <= i < |labels| ==> |labels[i]| <= 255
  }

  lemma {:induction false} EncodingInjective(a: seq<seq<Byte>>, b: seq<seq<Byte>>)
    requires ByteLabels(a) && ByteLabels(b) && EncodeLabels(a) == EncodeLabels(b)
    ensures a == b
    decreases |a|
  {
    if a != [] && b != [] {
      var bytes := EncodeLabels(a);
      assert bytes[0] == |a[0]| && bytes[0] == |b[0]|;
      assert bytes[1..1 + |a[0]|] == a[0] && bytes[1..1 + |a[0]|] == b[0];
      assert bytes[1 + |a[0]|..] == EncodeLabels(a[1..]) && bytes[1 + |a[0]|..] == EncodeLabels(b[1..]);
      EncodingInjective(a[1..], b[1..]);
      assert a == [a[0]] + a[1..] && b == [b[0]] + b[1..];
    }
  }

  /** Different hosts have different requests, as long as every label's length fits in its byte. */
  lemma RequestInjective(h1: seq<Byte>, h2: seq<Byte>)
    requires ByteLabels(Split(h1)) && ByteLabels(Split(h2)) && Request(h1) == Request(h2)
    ensures h1 == h2
  {
    EncodedLength([], h1);
    EncodedLength([], h2);
    assert Request(h1)[HEAD_SIZE..|h1| + 13] == EncodeLabels(Split(h1));
    assert Request(h2)[HEAD_SIZE..|h2| + 13] == EncodeLabels(Split(h2));
    EncodingInjective(Split(h1), Split(h2));
    JoinSplit([], h1);
    JoinSplit([], h2);
    assert [] + h1 == h1 && [] + h2 == h2;
  }

  lemma SplitsAfterDot(tail: seq<Byte>)
    requires DOT !in tail
    ensures Split([DOT] + tail) == [[]] + [tail]
  {
    SplitsTogether(tail);
    assert ([DOT] + tail)[1..] == tail;
  }

  /** Longer labels collide: a label of 256 bytes and an empty label before one of 255 bytes. */
  lemma LongLabelsCollide(tail: seq<Byte>)
    requires |tail| == 255 && DOT !in tail
    ensures EncodeLabels(Split([255] + tail)) == EncodeLabels(Split([DOT] + tail))
    ensures Request([255] + tail) == Request([DOT] + tail) && [255] + tail != [DOT] + tail
  {
    SplitsTogether([255] + tail);
    SplitsAfterDot(tail);
    EncodeOne([255] + tail);
    EncodeOne(tail);
    EncodeFirst([], [tail]);
    assert EncodeLabel([255] + tail) == EncodeLabel([]) + EncodeLabel(tail);
    assert ([255] + tail)[0] != ([DOT] + tail)[0];
  }

  lemma {:induction false} EncodeAppend(a: seq<seq<Byte>>, b: seq<seq<Byte>>)
    ensures EncodeLabels(a + b) == EncodeLabels(a) + EncodeLabels(b)
    decreases |a|
  {
    if a == [] {
      assert a + b == b;
    } else {
      assert a + b == [a[0]] + (a[1..] + b);
      EncodeFirst(a[0], a[1..] + b);
      EncodeAppend(a[1..], b);
      Associative(EncodeLabel(a[0]), EncodeLabels(a[1..]), EncodeLabels(b));
    }
  }

  /** Hosts that collide go on colliding whatever labels follow. */
  lemma CollisionExtends(h1: seq<Byte>, h2: seq<Byte>, more: seq<Byte>)
    requires EncodeLabels(Split(h1)) == EncodeLabels(Split(h2))
    ensures Request(h1 + [DOT] + more) == Request(h2 + [DOT] + more)
  {
    SplitAtDot([], h1, more);
    SplitAtDot([], h2, more);
    EncodeAppend(Split(h1), Split(more));
    EncodeAppend(Split(h2), Split(more));
  }

  /** What a host is: a string of the C library, which ends at its first zero. */
  predicate CString(host: seq<Byte>) { 0 !in host }

  predicate Collide(h1: seq<Byte>, h2: seq<Byte>) {
    CString(h1) && CString(h2) && h1 != h2 && Request(h1) == Request(h2)
  }

  /** Above 255 bytes there are hosts of every length that collide. */
  lemma CollisionOfLength(n: nat) returns (h1: seq<Byte>, h2: seq<Byte>)
    requires 255 < n
    ensures |h1| == |h2| == n && Collide(h1, h2)
  {
    var tail: seq<Byte> := seq(255, _ => 97);
    LongLabelsCollide(tail);
    h1, h2 := [255] + tail, [DOT] + tail;
    if 256 < n {
      var more: seq<Byte> := seq(n - 257, _ => 97);
      CollisionExtends(h1, h2, more);
      h1, h2 := h1 + [DOT] + more, h2 + [DOT] + more;
    }
    assert h1[0] == 255 && h2[0] == DOT;
  }

  /** No label is longer than the host. */
  lemma {:induction false} LabelsFit(part: seq<Byte>, host: seq<Byte>)
    ensures forall i :: 0 <= i < |SplitFrom(part, host)| ==> |SplitFrom(part, host)[i]| <= |part| + |host|
    decreases |host|
  {
    if host != [] {
      LabelsFit(if host[0] == DOT then [] else part + [host[0]], host[1..]);
    }
  }

  lemma ShortHostsDiffer(h1: seq<Byte>, h2: seq<Byte>)
    requires |h1| <= 255 && Request(h1) == Request(h2)
    ensures h1 == h2
  {
    RequestLength(h1);
    RequestLength(h2);
    LabelsFit([], h1);
    LabelsFit([], h2);
    RequestInjective(h1, h2);
  }

  /** Every host of `n` bytes has a request of its own exactly if `n` is at most 255. */
  lemma DistinctRequestsIff(n: nat)
    ensures (forall h1, h2 :: |h1| == n && CString(h1) && CString(h2) && Request(h1) == Request(h2) ==> h1 == h2)
            <==> n <= 255
  {
    if n <= 255 {
      forall h1, h2 | |h1| == n && Request(h1) == Request(h2) ensures h1 == h2 {
        ShortHostsDiffer(h1, h2);
      }
    } else {
      var h1, h2 := CollisionOfLength(n);
      assert Collide(h1, h2);
    }
  }

  // ---------------------------------------------------------------- the round trip

  lemma HeaderFields(r: seq<Byte>)
    requires 12 <= |r| && r[..12] == HEAD
    ensures Word16(r, 0) == 0xAAAA && r[2] == 1 && r[3] == 0
    ensures Word16(r, 4) == 1 && Word16(r, 6) == 0 && Word16(r, 8) == 0 && Word16(r, 10) == 0
  {
    assert forall i :: 0 <= i < 12 ==> r[i] == r[..12][i];
  }

  lemma QueryReads(r: seq<Byte>, labels: seq<seq<Byte>>)
    requires 12 <= |r| <= 271 && r[..12] == HEAD && DecodeName(r[12..]) == Name(labels, [0, 1, 0, 1])
    ensures DecodeMessage(r) == Query(labels)
  {
    HeaderFields(r);
  }

  lemma NameOfRequest(host: seq<Byte>)
    ensures |Request(host)| == |host| + 18
    ensures Request(host)[12..] == EncodeLabels(Split(host)) + [0] + [0, 1, 0, 1]
  {
    RequestLength(host);
  }

  lemma SameEncoding(a: seq<Byte>, b: seq<Byte>, x: seq<Byte>, y: seq<Byte>)
    requires a + [0] + x == b + [0] + y && |x| == |y|
    ensures a == b && x == y
  {
    var left, right := a + [0] + x, b + [0] + y;
    assert |a| == |b|;
    assert left[..|a|] == a && right[..|b|] == b;
    assert left[|a| + 1..] == x && right[|b| + 1..] == y;
  }

  lemma DecodedIsSplit(host: seq<Byte>, labels: seq<seq<Byte>>)
    requires DecodeMessage(Request(host)) == Query(labels)
    ensures labels == Split(host) && ProperLabels(labels) && |host| <= 253
  {
    var name := Request(host)[12..];
    NameOfRequest(host);
    DecodedIsEncoded(name);
    var rest := DecodeName(name).rest;
    assert |rest[4..]| == 0;
    SameEncoding(EncodeLabels(labels), EncodeLabels(Split(host)), rest, [0, 1, 0, 1]);
    LabelsFit([], host);
    EncodingInjective(labels, Split(host));
  }

  /** What a server reads in the request is a standard query, recursion desired, with one question and
      nothing else, for the address of the name with these labels, exactly if they are the parts of the host
      between its dots, each of 1 to 63 bytes, and the name fits in 255. */
  lemma RoundTripIff(host: seq<Byte>, labels: seq<seq<Byte>>)
    ensures DecodeMessage(Request(host))
            == Message(0xAAAA, false, 0, false, false, true, false, 0, 0, 1, 0, 0, 0, labels, 1, 1, [])
            <==> && labels != [] && Join(labels, 46) == host && |host| <= 253
                 && forall i :: 0 <= i < |labels| ==> 46 !in labels[i] && 1 <= |labels[i]| <= 63
  {
    SplitIff(host, labels);
    if DecodeMessage(Request(host)) == Query(labels) {
      DecodedIsSplit(host, labels);
    }
    if labels == Split(host) && ProperLabels(labels) && |host| <= 253 {
      NameOfRequest(host);
      DecodeEncoded(labels, [0, 1, 0, 1]);
      assert Request(host)[..12] == HEAD;
      QueryReads(Request(host), labels);
    }
  }

  // ---------------------------------------------------------------- the program

  /** `strlen` on a zero-filled array. */
  function StrLen(s: seq<Byte>): nat {
    if s == [] || s[0] == 0 then 0 else 1 + StrLen(s[1..])
  }

  lemma {:induction false} StrLenOf(s: seq<Byte>, n: nat)
    requires n < |s| && s[n] == 0 && forall i :: 0 <= i < n ==> s[i] != 0
    ensures StrLen(s) == n
  {
    if 0 < n {
      StrLenOf(s[1..], n - 1);
    }
  }

  /** Writes the length of the string in `buffer` and the string itself. */
  method WriteLabel(request: array<Byte>, at: nat, buffer: array<Byte>, ghost l: seq<Byte>) returns (next: nat)
    requires request != buffer && buffer.Length == BUFFER_SIZE && |l| < BUFFER_SIZE
    requires at + 1 + |l| <= request.Length
    requires buffer[..|l|] == l && 0 !in l && buffer[|l|] == 0
    modifies request
    ensures next == at + 1 + |l| && request[..next] == old(request[..at]) + EncodeLabel(l)
  {
    assert forall i :: 0 <= i < |l| ==> buffer[..][i] == l[i];
    StrLenOf(buffer[..], |l|);
    var bufferIter := 0;
    next := at;
    request[next] := StrLen(buffer[..]) % 256;
    next := next + 1;
    while bufferIter < StrLen(buffer[..])
      invariant 0 <= bufferIter <= |l| && next == at + 1 + bufferIter
      invariant request[..next] == old(request[..at]) + [(|l| % 256) as Byte] + l[..bufferIter]
      invariant buffer[..] == old(buffer[..])
    {
      request[next] := buffer[bufferIter];
      next := next + 1;
      bufferIter := bufferIter + 1;
    }
    assert l[..|l|] == l;
  }

  method Clear(buffer: array<Byte>)
    modifies buffer
    ensures forall i :: 0 <= i < buffer.Length ==> buffer[i] == 0
  {
    for i := 0 to buffer.Length
      invariant forall j :: 0 <= j < i ==> buffer[j] == 0
    {
      buffer[i] := 0;
    }
  }

  /** What `buffer` holds while a label is being read. */
  ghost predicate Holds(buffer: array<Byte>, part: seq<Byte>)
    reads buffer
  {
    && |part| < buffer.Length && buffer[..|part|] == part && 0 !in part
    && forall i :: |part| <= i < buffer.Length ==> buffer[i] == 0
  }

  method WriteHead(request: array<Byte>)
    requires HEAD_SIZE <= request.Length
    modifies request
    ensures request[..HEAD_SIZE] == HEAD
  {
    var requestIter := 0;
    while requestIter < HEAD_SIZE
      invariant 0 <= requestIter <= HEAD_SIZE && request[..requestIter] == HEAD[..requestIter]
    {
      request[requestIter] := HEAD[requestIter];
      requestIter := requestIter + 1;
    }
  }

  method WriteTale(request: array<Byte>, at: nat) returns (requestIter: nat)
    requires at + TALE_SIZE <= request.Length
    modifies request
    ensures requestIter == at + TALE_SIZE && request[..requestIter] == old(request[..at]) + TALE
  {
    requestIter := at;
    var taleIter := 0;
    while taleIter < TALE_SIZE
      invariant 0 <= taleIter <= TALE_SIZE && requestIter == at + taleIter
      invariant request[..requestIter] == old(request[..at]) + TALE[..taleIter]
    {
      request[requestIter] := TALE[taleIter];
      requestIter := requestIter + 1;
      taleIter := taleIter + 1;
    }
    assert TALE[..TALE_SIZE] == TALE;
  }

  /** Appends one byte of the host to the label being read. */
  method Append(buffer: array<Byte>, j: nat, b: Byte, ghost part: seq<Byte>)
    requires Holds(buffer, part) && j == |part| && j + 1 < buffer.Length && b != 0
    modifies buffer
    ensures Holds(buffer, part + [b])
  {
    buffer[j] := b;
    assert buffer[..j + 1] == buffer[..j] + [b];
  }

  /** Up to byte `i` of the host the labels `done` are written and `part` of the next one is read. */
  ghost predicate Reading(host: seq<Byte>, i: nat, done: seq<seq<Byte>>, part: seq<Byte>,
                          before: seq<Byte>, written: seq<Byte>)
  {
    && i <= |host| && |part| <= i
    && |written| + |part| == |before| + i
    && written == before + EncodeLabels(done)
    && Split(host) == done + SplitFrom(part, host[i..])
  }

  lemma SplitStep(part: seq<Byte>, host: seq<Byte>, i: nat)
    requires i < |host|
    ensures SplitFrom(part, host[i..])
         == if host[i] == DOT then [part] + SplitFrom([], host[i + 1..]) else SplitFrom(part + [host[i]], host[i + 1..])
  {
    assert host[i..][1..] == host[i + 1..];
  }

  lemma ReadByte(host: seq<Byte>, i: nat, done: seq<seq<Byte>>, part: seq<Byte>, before: seq<Byte>, written: seq<Byte>)
    requires i < |host| && host[i] != DOT && Reading(host, i, done, part, before, written)
    ensures Reading(host, i + 1, done, part + [host[i]], before, written)
  {
    SplitStep(part, host, i);
  }

  lemma ReadDot(host: seq<Byte>, i: nat, done: seq<seq<Byte>>, part: seq<Byte>, before: seq<Byte>, written: seq<Byte>)
    requires i < |host| && host[i] == DOT && Reading(host, i, done, part, before, written)
    ensures Reading(host, i + 1, done + [part], [], before, written + EncodeLabel(part))
  {
    SplitStep(part, host, i);
    EncodeSnoc(done, part);
    Associative(before, EncodeLabels(done), EncodeLabel(part));
    Associative(done, [part], SplitFrom([], host[i + 1..]));
  }

  lemma ReadAll(host: seq<Byte>, done: seq<seq<Byte>>, part: seq<Byte>, before: seq<Byte>, written: seq<Byte>)
    requires Reading(host, |host|, done, part, before, written)
    ensures written + EncodeLabel(part) == before + EncodeLabels(Split(host))
  {
    EncodeSnoc(done, part);
    Associative(before, EncodeLabels(done), EncodeLabel(part));
    assert host[|host|..] == [];
  }

  /** Splits the host at its dots and writes every label. */
  method WriteHost(host: seq<Byte>, request: array<Byte>, at: nat) returns (requestIter: nat)
    requires 0 !in host && |host| + 18 <= BUFFER_SIZE && at + |host| + 1 <= request.Length
    modifies request
    ensures requestIter == at + |host| + 1
    ensures request[..requestIter] == old(request[..at]) + EncodeLabels(Split(host))
  {
    requestIter := at;
    var buffer := new Byte[BUFFER_SIZE](_ => 0);
    var hostIter, j := 0, 0;
    ghost var part: seq<Byte> := [];
    ghost var done: seq<seq<Byte>> := [];
    ghost var before := request[..at];
    assert host[0..] == host;
    while hostIter < |host|
      invariant fresh(buffer) && buffer.Length == BUFFER_SIZE && Holds(buffer, part)
      invariant requestIter <= request.Length && j == |part|
      invariant Reading(host, hostIter, done, part, before, request[..requestIter])
    {
      assert host[hostIter] in host;
      if host[hostIter] == DOT {
        ReadDot(host, hostIter, done, part, before, request[..requestIter]);
        requestIter := WriteLabel(request, requestIter, buffer, part);
        Clear(buffer);
        done, part := done + [part], [];
        hostIter := hostIter + 1;
        j := 0;
        continue;
      }
      ReadByte(host, hostIter, done, part, before, request[..requestIter]);
      Append(buffer, j, host[hostIter], part);
      part := part + [host[hostIter]];
      j := j + 1;
      hostIter := hostIter + 1;
    }
    ReadAll(host, done, part, before, request[..requestIter]);
    requestIter := WriteLabel(request, requestIter, buffer, part);
  }

  /** Builds the request in a zero-filled array; the host must leave room for the 18 bytes around it. */
  method BuildRequest(host: seq<Byte>) returns (request: array<Byte>, requestIter: nat)
    requires 0 !in host && |host| + 18 <= BUFFER_SIZE
    ensures fresh(request) && requestIter == |host| + 18 <= request.Length
    ensures request[..requestIter] == Request(host)
  {
    request := new Byte[BUFFER_SIZE](_ => 0);
    WriteHead(request);
    requestIter := WriteHost(host, request, HEAD_SIZE);
    requestIter := WriteTale(request, requestIter);
  }
}
