/** The consensus write-ahead log (`consensus/wal.go`): record framing, and the search for the end of
    a height that starts from the newest file.

    Marshalling and the checksum are parameters. A reader opened at a file goes on through all newer
    files, so it is the concatenation of their bytes; reading zero bytes is an error. */
module Wal {
  import opened Options

  type Bytes = seq<nat>

  const MAX_MSG_SIZE := 1048576
  const WORD := 0x1_0000_0000

  datatype Msg = EndHeight(height: int) | Other(id: nat)

  datatype Codec = Codec(marshal: Msg -> Bytes, unmarshal: Bytes -> Option<Msg>, crc: Bytes -> nat)

  ghost predicate Lawful(c: Codec) {
    && (forall m: Msg :: c.marshal(m) != [] && c.unmarshal(c.marshal(m)) == Some(m))
    && (forall b: Bytes :: c.crc(b) < WORD)
  }

  // ----- records ---------------------------------------------------------------------------------

  function Word(n: nat): Bytes {
    [n / 0x100_0000 % 256, n / 0x1_0000 % 256, n / 256 % 256, n % 256]
  }

  function FromWord(b: Bytes): nat
    requires |b| == 4
  {
    ((b[0] * 256 + b[1]) * 256 + b[2]) * 256 + b[3]
  }

  lemma WordRoundTrip(n: nat)
    requires n < WORD
    ensures FromWord(Word(n)) == n
  {
    var a := n / 256;
    var b := a / 256;
    var d := b / 256;
    assert n / 0x1_0000 == b && n / 0x100_0000 == d && d < 256;
    assert n == a * 256 + n % 256 && a == b * 256 + a % 256 && b == d * 256 + b % 256;
  }

  /** Checksum, length, data; the length is taken modulo the word and must not exceed the maximum. */
  function Encode(c: Codec, m: Msg): Option<Bytes> {
    var data := c.marshal(m);
    var length := |data| % WORD;
    if length > MAX_MSG_SIZE then None
    else Some(Word(c.crc(data)) + Word(length) + data[..length])
  }

  /** What reading n bytes yields: fewer only at the end. */
  function Take(s: Bytes, n: nat): Bytes {
    if n <= |s| then s[..n] else s
  }

  function Skip(s: Bytes, n: nat): (r: Bytes)
    ensures |r| <= |s|
  {
    if n <= |s| then s[n..] else []
  }

  datatype Decoded = Message(msg: Msg, rest: Bytes) | EOF | Corrupt(rest: Bytes)

  function Decode(c: Codec, s: Bytes): (d: Decoded)
    ensures !d.EOF? ==> |d.rest| < |s|
  {
    if |s| < 4 then EOF
    else
      var s1 := Skip(s, 4);
      if |s1| < 4 then Corrupt([])
      else
        var s2 := Skip(s1, 4);
        var length := FromWord(Take(s1, 4));
        if length > MAX_MSG_SIZE then Corrupt(s2)
        else if length == 0 || |s2| < length then Corrupt(Skip(s2, length))
        else
          var data := Take(s2, length);
          if c.crc(data) != FromWord(Take(s, 4)) then Corrupt(Skip(s2, length))
          else
            var m := c.unmarshal(data);
            if m.None? then Corrupt(Skip(s2, length)) else Message(m.value, Skip(s2, length))
  }

  /** A message the encoder accepts, unless its size wraps around the word. */
  predicate Encodable(c: Codec, m: Msg) {
    |c.marshal(m)| <= MAX_MSG_SIZE
  }

  function EncodeAll(c: Codec, ms: seq<Msg>): Bytes {
    if ms == [] then []
    else (if Encode(c, ms[0]).Some? then Encode(c, ms[0]).value else []) + EncodeAll(c, ms[1..])
  }

  ghost predicate AllEncodable(c: Codec, ms: seq<Msg>) {
    forall i :: 0 <= i < |ms| ==> Encodable(c, ms[i])
  }

  /** One record followed by anything decodes to its message and leaves the rest. */
  lemma DecodeRecord(c: Codec, m: Msg, rest: Bytes)
    requires Lawful(c) && Encodable(c, m)
    ensures Encode(c, m).Some? && Decode(c, Encode(c, m).value + rest) == Message(m, rest)
  {
    var data := c.marshal(m);
    var n := |data|;
    var head, size := Word(c.crc(data)), Word(n);
    var s := Encode(c, m).value + rest;
    assert data[..n] == data;
    assert s == head + (size + (data + rest));
    assert s[..4] == head && s[4..] == size + (data + rest);
    assert (size + (data + rest))[..4] == size && (size + (data + rest))[4..] == data + rest;
    assert (data + rest)[..n] == data && (data + rest)[n..] == rest;
    WordRoundTrip(c.crc(data));
    WordRoundTrip(n);
  }

  lemma DecodeEnd(c: Codec)
    ensures Decode(c, []) == EOF
  {
  }

  /** A record is accepted exactly when its length is from one to the maximum and all there, its checksum is
      that of its data and the data unmarshals; anything else is corruption, behind which reading goes on. */
  lemma DecodeExactly(c: Codec, head: Bytes, size: Bytes, body: Bytes)
    requires |head| == |size| == 4
    ensures var n, d := FromWord(size), Decode(c, head + size + body);
            && (d.Message? <==> 0 < n <= MAX_MSG_SIZE && n <= |body| && c.crc(body[..n]) == FromWord(head) && c.unmarshal(body[..n]).Some?)
            && (d.Message? ==> Some(d.msg) == c.unmarshal(body[..n]) && d.rest == body[n..])
            && (!d.Message? ==> d == Corrupt(if n > MAX_MSG_SIZE then body else if n <= |body| then body[n..] else []))
  {
    var s := head + size + body;
    assert s == head + (size + body);
    assert s[..4] == head && s[4..] == size + body;
    assert (size + body)[..4] == size && (size + body)[4..] == body;
  }

  /** Bytes in place of the data that do not have its checksum are seen to be damaged. */
  lemma DamageDetected(c: Codec, m: Msg, data: Bytes, rest: Bytes)
    requires Lawful(c) && Encodable(c, m) && |data| == |c.marshal(m)| && c.crc(data) != c.crc(c.marshal(m))
    ensures Decode(c, Word(c.crc(c.marshal(m))) + Word(|data|) + data + rest) == Corrupt(rest)
  {
    var head, size := Word(c.crc(c.marshal(m))), Word(|data|);
    WordRoundTrip(c.crc(c.marshal(m)));
    WordRoundTrip(|data|);
    DecodeExactly(c, head, size, data + rest);
    assert head + size + data + rest == head + size + (data + rest);
    assert (data + rest)[..|data|] == data && (data + rest)[|data|..] == rest;
  }

  /** A record torn off anywhere is never taken for a message: it is the end, or corruption up to the end. */
  lemma TornRecord(c: Codec, m: Msg, k: nat)
    requires Lawful(c) && Encodable(c, m) && Encode(c, m).Some? && k < |Encode(c, m).value|
    ensures Decode(c, Encode(c, m).value[..k]) == if k < 4 then EOF else Corrupt([])
  {
    var data := c.marshal(m);
    var head, size := Word(c.crc(data)), Word(|data|);
    var s := Encode(c, m).value;
    assert data[..|data|] == data;
    if k >= 8 {
      assert s[..k] == head + size + data[..k - 8];
      WordRoundTrip(|data|);
      DecodeExactly(c, head, size, data[..k - 8]);
    }
  }

  function DecodeAll(c: Codec, s: Bytes): Option<seq<Msg>>
    decreases |s|
  {
    match Decode(c, s)
    case EOF => Some([])
    case Corrupt(_) => None
    case Message(m, rest) =>
      var more := DecodeAll(c, rest);
      if more.None? then None else Some([m] + more.value)
  }

  /** Decoding the concatenation of any encoded messages yields those messages, then the end. */
  lemma {:induction false} LogRoundTrip(c: Codec, ms: seq<Msg>)
    requires Lawful(c) && AllEncodable(c, ms)
    ensures DecodeAll(c, EncodeAll(c, ms)) == Some(ms)
  {
    hide Decode, Encode, Lawful;
    DecodeEnd(c);
    if ms != [] {
      var s := EncodeAll(c, ms);
      DecodeRecord(c, ms[0], EncodeAll(c, ms[1..]));
      LogRoundTrip(c, ms[1..]);
      assert Decode(c, s) == Message(ms[0], EncodeAll(c, ms[1..]));
      assert [ms[0]] + ms[1..] == ms;
    }
  }

  // ----- the search ------------------------------------------------------------------------------

  function Concat(files: seq<Bytes>): Bytes {
    if files == [] then [] else files[0] + Concat(files[1..])
  }

  /** Reading one reader to its end: where the marker ends, or the last marker height seen. */
  datatype Scan = Found(rest: Bytes) | Ended(last: int) | Failed

  function ScanBytes(c: Codec, s: Bytes, height: int, ignore: bool, last: int): Scan
    decreases |s|
  {
    match Decode(c, s)
    case EOF => Ended(last)
    case Corrupt(rest) => if ignore then ScanBytes(c, rest, height, ignore, last) else Failed
    case Message(m, rest) =>
      if m.EndHeight? then
        if m.height == height then Found(rest) else ScanBytes(c, rest, height, ignore, m.height)
      else ScanBytes(c, rest, height, ignore, last)
  }

  datatype SearchResult = Marker(rest: Bytes) | NotFound | ReadError

  /** Files newest first from the n-th down; stops early once a smaller positive marker was seen. */
  function Search(c: Codec, files: seq<Bytes>, height: int, ignore: bool, n: nat, last: int): SearchResult
    requires n <= |files|
  {
    if n == 0 then NotFound
    else
      match ScanBytes(c, Concat(files[n - 1..]), height, ignore, last)
      case Found(rest) => Marker(rest)
      case Failed => ReadError
      case Ended(l) => if l > 0 && l < height then NotFound else Search(c, files, height, ignore, n - 1, l)
  }

  /** Reads one reader to its end or to the marker. */
  method ScanReader(c: Codec, s: Bytes, height: int, ignore: bool, seen: int) returns (r: Scan)
    ensures r == ScanBytes(c, s, height, ignore, seen)
  {
    hide Decode;
    var gr, last := s, seen;
    while true
      invariant ScanBytes(c, s, height, ignore, seen) == ScanBytes(c, gr, height, ignore, last)
      decreases |gr|
    {
      var d := Decode(c, gr);
      if d.EOF? {
        return Ended(last);
      }
      gr := d.rest;
      if d.Corrupt? {
        if !ignore {
          return Failed;
        }
        continue;
      }
      if d.msg.EndHeight? {
        last := d.msg.height;
        if d.msg.height == height {
          return Found(gr);
        }
      }
    }
  }

  method SearchForEndHeight(c: Codec, files: seq<Bytes>, height: int, ignore: bool) returns (r: SearchResult)
    ensures r == Search(c, files, height, ignore, |files|, -1)
  {
    hide ScanBytes, Concat;
    var last := -1;
    var index := |files|;
    while index > 0
      invariant 0 <= index <= |files|
      invariant Search(c, files, height, ignore, |files|, -1) == Search(c, files, height, ignore, index, last)
    {
      var scan := ScanReader(c, Concat(files[index - 1..]), height, ignore, last);
      match scan {
        case Found(rest) => return Marker(rest);
        case Failed => return ReadError;
        case Ended(l) =>
          last := l;
          if last > 0 && last < height {
            return NotFound;
          }
      }
      index := index - 1;
    }
    return NotFound;
  }

  // ----- on a log with damaged stretches ---------------------------------------------------------

  datatype Item = Intact(msg: Msg) | Damaged(bytes: Bytes)

  function ItemBytes(c: Codec, item: Item): Bytes {
    match item
    case Intact(m) => if Encode(c, m).Some? then Encode(c, m).value else []
    case Damaged(bytes) => bytes
  }

  function LogBytes(c: Codec, items: seq<Item>): Bytes {
    if items == [] then [] else ItemBytes(c, items[0]) + LogBytes(c, items[1..])
  }

  /** Messages that were encoded, and stretches that are seen to be damaged where they stand. */
  ghost predicate Genuine(c: Codec, items: seq<Item>) {
    forall i :: 0 <= i < |items| ==>
      match items[i]
      case Intact(m) => Encodable(c, m)
      case Damaged(bytes) => Decode(c, bytes + LogBytes(c, items[i + 1..])) == Corrupt(LogBytes(c, items[i + 1..]))
  }

  predicate Marks(item: Item, height: int) {
    item == Intact(EndHeight(height))
  }

  function Join(logs: seq<seq<Item>>): seq<Item> {
    if logs == [] then [] else logs[0] + Join(logs[1..])
  }

  function Files(c: Codec, logs: seq<seq<Item>>): (r: seq<Bytes>)
    ensures |r| == |logs| && forall i :: 0 <= i < |logs| ==> r[i] == LogBytes(c, logs[i])
  {
    seq(|logs|, i requires 0 <= i < |logs| => LogBytes(c, logs[i]))
  }

  lemma {:induction false} LogConcat(c: Codec, a: seq<Item>, b: seq<Item>)
    ensures LogBytes(c, a + b) == LogBytes(c, a) + LogBytes(c, b)
  {
    hide ItemBytes;
    if a == [] {
      assert a + b == b;
    } else {
      LogConcat(c, a[1..], b);
      assert (a + b)[1..] == a[1..] + b;
    }
  }

  lemma {:induction false} ConcatFiles(c: Codec, logs: seq<seq<Item>>)
    ensures Concat(Files(c, logs)) == LogBytes(c, Join(logs))
  {
    if logs != [] {
      ConcatFiles(c, logs[1..]);
      assert Files(c, logs)[1..] == Files(c, logs[1..]);
      LogConcat(c, logs[0], Join(logs[1..]));
    }
  }

  lemma GenuineTail(c: Codec, items: seq<Item>, d: nat)
    requires Genuine(c, items) && d <= |items|
    ensures Genuine(c, items[d..])
  {
    hide LogBytes, Decode;
    forall i | 0 <= i < |items[d..]| ensures items[d..][i + 1..] == items[d + i + 1..] && items[d..][i] == items[d + i] {
    }
  }

  /** The height of the last marker, or what was known before. */
  function LastMarker(items: seq<Item>, last: int): int {
    if items == [] then last
    else LastMarker(items[1..], if items[0].Intact? && items[0].msg.EndHeight? then items[0].msg.height else last)
  }

  /** Where a scan stops: at the marker sought or, unless told to ignore it, at damage. */
  function FirstStop(items: seq<Item>, height: int, ignore: bool): (i: nat)
    ensures i <= |items|
    ensures i < |items| ==> Marks(items[i], height) || (items[i].Damaged? && !ignore)
    ensures forall j: nat :: j < i ==> !Marks(items[j], height) && (items[j].Damaged? ==> ignore)
  {
    if items == [] || Marks(items[0], height) || (items[0].Damaged? && !ignore) then 0
    else 1 + FirstStop(items[1..], height, ignore)
  }

  /** A scan finds the first marker of the height and stops right behind it. Damage before that is skipped or,
      unless ignored, fails the scan. */
  lemma {:induction false} ScanExactly(c: Codec, items: seq<Item>, height: int, ignore: bool, last: int)
    requires Lawful(c) && Genuine(c, items)
    ensures var i := FirstStop(items, height, ignore);
            ScanBytes(c, LogBytes(c, items), height, ignore, last) ==
              if i == |items| then Ended(LastMarker(items, last))
              else if items[i].Intact? then Found(LogBytes(c, items[i + 1..]))
              else Failed
  {
    hide Decode, Lawful, Genuine, ItemBytes;
    DecodeEnd(c);
    if items != [] {
      GenuineTail(c, items, 1);
      ItemDecodes(c, items);
      ScanExactly(c, items[1..], height, ignore, if items[0].Intact? && items[0].msg.EndHeight? then items[0].msg.height else last);
      var i := FirstStop(items[1..], height, ignore);
      assert i < |items| - 1 ==> items[1..][i + 1..] == items[i + 2..];
    }
  }

  lemma ItemDecodes(c: Codec, items: seq<Item>)
    requires Lawful(c) && Genuine(c, items) && items != []
    ensures var rest := LogBytes(c, items[1..]);
            Decode(c, LogBytes(c, items)) == if items[0].Intact? then Message(items[0].msg, rest) else Corrupt(rest)
  {
    hide Decode, Lawful;
    if items[0].Intact? {
      DecodeRecord(c, items[0].msg, LogBytes(c, items[1..]));
    }
  }

  /** Positive markers are strictly increasing. */
  ghost predicate Increasing(items: seq<Item>) {
    forall i, j, h, k :: 0 <= i < j < |items| && Marks(items[i], h) && Marks(items[j], k) && h > 0 && k > 0 ==> h < k
  }

  lemma {:induction false} JoinSuffix(logs: seq<seq<Item>>, n: nat) returns (before: seq<Item>)
    requires n <= |logs|
    ensures Join(logs) == before + Join(logs[n..])
  {
    if n == 0 {
      before := [];
    } else {
      var rest := JoinSuffix(logs[1..], n - 1);
      assert logs[1..][n - 1..] == logs[n..];
      before := logs[0] + rest;
    }
  }

  lemma {:induction false} LastMarkerIs(items: seq<Item>, last: int)
    ensures LastMarker(items, last) == last || Intact(EndHeight(LastMarker(items, last))) in items
  {
    if items != [] {
      LastMarkerIs(items[1..], if items[0].Intact? && items[0].msg.EndHeight? then items[0].msg.height else last);
    }
  }

  /** The items from the n-th file on, as a suffix of the whole log. */
  lemma TailOf(c: Codec, logs: seq<seq<Item>>, n: nat) returns (d: nat)
    requires n <= |logs|
    ensures d + |Join(logs[n..])| == |Join(logs)| && Join(logs[n..]) == Join(logs)[d..]
    ensures Concat(Files(c, logs)[n..]) == LogBytes(c, Join(logs[n..]))
  {
    var before := JoinSuffix(logs, n);
    d := |before|;
    ConcatFiles(c, logs[n..]);
    assert Files(c, logs)[n..] == Files(c, logs[n..]);
  }

  lemma TailGrows(logs: seq<seq<Item>>, n: nat)
    requires 0 < n <= |logs|
    ensures forall x <- Join(logs[n..]) :: x in Join(logs[n - 1..])
  {
    assert logs[n - 1..][1..] == logs[n..];
  }

  /** What each answer says about the whole log. */
  ghost predicate Truthful(c: Codec, all: seq<Item>, height: int, ignore: bool, r: SearchResult) {
    match r
    case Marker(rest) => exists at :: 0 <= at < |all| && Marks(all[at], height) && rest == LogBytes(c, all[at + 1..])
    case NotFound => Intact(EndHeight(height)) !in all
    case ReadError => !ignore && exists i :: 0 <= i < |all| && all[i].Damaged?
  }

  /** A smaller positive marker with none of the height behind it: there is none in the log. */
  lemma StopsRightly(all: seq<Item>, d: nat, height: int, seen: int)
    requires Increasing(all) && d <= |all| && 0 < seen < height
    requires Intact(EndHeight(seen)) in all[d..] && Intact(EndHeight(height)) !in all[d..]
    ensures Intact(EndHeight(height)) !in all
  {
    var i :| 0 <= i < |all[d..]| && all[d..][i] == Intact(EndHeight(seen));
    assert Marks(all[d + i], seen);
    forall j | 0 <= j < |all| ensures !Marks(all[j], height) {
      if j >= d {
        assert all[j] == all[d..][j - d];
      }
    }
  }

  lemma {:induction false} SearchFrom(c: Codec, logs: seq<seq<Item>>, height: int, ignore: bool, n: nat, last: int)
    requires Lawful(c) && Genuine(c, Join(logs)) && Increasing(Join(logs)) && n <= |logs|
    requires Intact(EndHeight(height)) !in Join(logs[n..])
    requires last <= 0 || Intact(EndHeight(last)) in Join(logs[n..])
    ensures Truthful(c, Join(logs), height, ignore, Search(c, Files(c, logs), height, ignore, n, last))
  {
    hide Lawful, Genuine, Join, Concat, LogBytes, ScanBytes, LastMarker, Files, Increasing, FirstStop;
    var all := Join(logs);
    if n == 0 {
      assert logs[0..] == logs;
    } else {
      var d := TailOf(c, logs, n - 1);
      var tail := all[d..];
      GenuineTail(c, all, d);
      ScanExactly(c, tail, height, ignore, last);
      var i := FirstStop(tail, height, ignore);
      if i < |tail| {
        assert tail[i] == all[d + i] && tail[i + 1..] == all[d + i + 1..];
      } else {
        assert Intact(EndHeight(height)) !in tail by {
          assert forall j: nat :: j < |tail| ==> !Marks(tail[j], height);
        }
        var seen := LastMarker(tail, last);
        LastMarkerIs(tail, last);
        TailGrows(logs, n);
        if 0 < seen < height {
          StopsRightly(all, d, height, seen);
        } else {
          SearchFrom(c, logs, height, ignore, n - 1, seen);
        }
      }
    }
  }

  /** Whatever is damaged, the search never lies: a marker it finds is one of the height, with the reader just
      behind it; it says there is none only if there is none, although it starts from the newest file and
      stops early; and it fails only on damage it was not told to ignore. Ignoring damage, or with none,
      it therefore finds a marker exactly when there is one. */
  lemma SearchIsExact(c: Codec, logs: seq<seq<Item>>, height: int, ignore: bool)
    requires Lawful(c) && Genuine(c, Join(logs)) && Increasing(Join(logs))
    ensures var all, r := Join(logs), Search(c, Files(c, logs), height, ignore, |logs|, -1);
            && Truthful(c, all, height, ignore, r)
            && (ignore || (forall i :: 0 <= i < |all| ==> all[i].Intact?) ==>
                  (r.Marker? <==> Intact(EndHeight(height)) in all) && (r == NotFound <==> Intact(EndHeight(height)) !in all))
  {
    hide Search, LogBytes, Genuine, Increasing, Lawful, Files;
    assert logs[|logs|..] == [];
    SearchFrom(c, logs, height, ignore, |logs|, -1);
  }
}
