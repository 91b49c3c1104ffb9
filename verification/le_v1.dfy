/** `LeProtocolV1`: the line-oriented protocol of deployed devices. Single
    ASCII command letters go out, text replies ending in a line feed come
    back, and settings, lists and scans travel as raw little-endian
    numbers. Replies and scan reads are retried a bounded number of times. */
module LeV1 {
  import opened Bytes
  import opened Errors
  import opened SerialPort
  import opened Configuration
  import opened Retry

  // ---------------------------------------------------------------------
  // Points per interval: the largest-remainder split

  /** What rounding down cut off each share, scaled by `total`: the
      fractional part `modf` returns, times the total length. */
  function Remainders(n: nat, lengths: seq<nat>, total: nat): (r: seq<nat>)
    requires total > 0
    ensures |r| == |lengths|
    ensures forall i :: 0 <= i < |r| ==> r[i] < total && total * Floors(n, lengths, total)[i] + r[i] == n * lengths[i]
  {
    seq(|lengths|, i requires 0 <= i < |lengths| => n * lengths[i] % total)
  }

  /** Interval `a` comes before interval `b` in `np.flip(np.argsort(remainders))`:
      a larger remainder first, and between equal remainders the later
      interval first (the reverse of a stable ascending sort). */
  predicate Ahead(rems: seq<nat>, a: nat, b: nat)
    requires a < |rems| && b < |rems|
  {
    rems[a] > rems[b] || (rems[a] == rems[b] && a > b)
  }

  predicate Indices(rems: seq<nat>, s: seq<nat>)
  {
    forall i :: 0 <= i < |s| ==> s[i] < |rems|
  }

  predicate Sorted(rems: seq<nat>, s: seq<nat>)
    requires Indices(rems, s)
  {
    forall p, q :: 0 <= p < q < |s| ==> Ahead(rems, s[p], s[q])
  }

  /** Places index `x` in front of the first index it is ahead of. */
  function Insert(rems: seq<nat>, x: nat, s: seq<nat>): (r: seq<nat>)
    requires x < |rems| && Indices(rems, s)
    ensures |r| == |s| + 1 && Indices(rems, r)
    ensures forall y :: y in r <==> y == x || y in s
  {
    if s == [] then [x]
    else if Ahead(rems, x, s[0]) then [x] + s
    else [s[0]] + Insert(rems, x, s[1..])
  }

  /** An index ahead of every entry of a sorted order can go in front. */
  lemma ConsSorted(rems: seq<nat>, h: nat, t: seq<nat>)
    requires h < |rems| && Indices(rems, t) && Sorted(rems, t)
    requires forall q :: 0 <= q < |t| ==> Ahead(rems, h, t[q])
    ensures Indices(rems, [h] + t) && Sorted(rems, [h] + t)
  {
    var r := [h] + t;
    forall p, q | 0 <= p < q < |r|
      ensures Ahead(rems, r[p], r[q])
    {
      assert r[q] == t[q - 1];
      if p > 0 {
        assert r[p] == t[p - 1];
      }
    }
  }

  /** When `x` goes behind the head of a sorted order, the head stays
      ahead of everything that follows it. */
  lemma HeadStaysAhead(rems: seq<nat>, x: nat, s: seq<nat>)
    requires x < |rems| && Indices(rems, s) && Sorted(rems, s) && x !in s
    requires s != [] && !Ahead(rems, x, s[0])
    ensures forall q :: 0 <= q < |Insert(rems, x, s[1..])| ==> Ahead(rems, s[0], Insert(rems, x, s[1..])[q])
  {
    var t := Insert(rems, x, s[1..]);
    forall q | 0 <= q < |t|
      ensures Ahead(rems, s[0], t[q])
    {
      assert t[q] in t;
      if t[q] != x {
        var k :| 0 <= k < |s[1..]| && s[1..][k] == t[q];
        assert s[k + 1] == t[q];
      }
    }
  }

  lemma {:induction false} InsertSorted(rems: seq<nat>, x: nat, s: seq<nat>)
    requires x < |rems| && Indices(rems, s) && Sorted(rems, s) && x !in s
    ensures Sorted(rems, Insert(rems, x, s))
  {
    if s == [] {
      assert Insert(rems, x, s) == [x];
    } else if Ahead(rems, x, s[0]) {
      forall q | 0 < q < |s|
        ensures Ahead(rems, x, s[q])
      {
        assert Ahead(rems, s[0], s[q]);
      }
      ConsSorted(rems, x, s);
    } else {
      InsertSorted(rems, x, s[1..]);
      HeadStaysAhead(rems, x, s);
      ConsSorted(rems, s[0], Insert(rems, x, s[1..]));
    }
  }

  /** The indices `0 .. m-1` ordered by `Ahead`. */
  function OrderOf(rems: seq<nat>, m: nat): (r: seq<nat>)
    requires m <= |rems|
    ensures |r| == m && Indices(rems, r)
    ensures forall y :: y in r <==> 0 <= y < m
  {
    if m == 0 then [] else Insert(rems, m - 1, OrderOf(rems, m - 1))
  }

  lemma {:induction false} OrderSorted(rems: seq<nat>, m: nat)
    requires m <= |rems|
    ensures Sorted(rems, OrderOf(rems, m))
  {
    if m > 0 {
      OrderSorted(rems, m - 1);
      InsertSorted(rems, m - 1, OrderOf(rems, m - 1));
    }
  }

  /** `np.flip(np.argsort(remainders))`: every interval exactly once, in
      `Ahead` order. */
  function Order(rems: seq<nat>): (r: seq<nat>)
    ensures |r| == |rems| && Indices(rems, r) && Sorted(rems, r)
    ensures forall y :: y in r <==> 0 <= y < |rems|
  {
    OrderSorted(rems, |rems|);
    OrderOf(rems, |rems|)
  }

  /** A sorted order never names an interval twice. */
  lemma SortedDistinct(rems: seq<nat>, s: seq<nat>, p: nat, q: nat)
    requires Indices(rems, s) && Sorted(rems, s) && p < q < |s|
    ensures s[p] != s[q]
  {
    assert Ahead(rems, s[p], s[q]);
  }

  /** The shares after one extra point for each interval in `winners`. */
  function Awarded(floors: seq<nat>, winners: seq<nat>): (r: seq<nat>)
    ensures |r| == |floors|
    ensures forall i :: 0 <= i < |floors| ==> r[i] == floors[i] + (if i in winners then 1 else 0)
  {
    seq(|floors|, i requires 0 <= i < |floors| => floors[i] + (if i in winners then 1 else 0))
  }

  /** One more winner adds one point to its own share only. */
  lemma AwardedSnoc(floors: seq<nat>, winners: seq<nat>, x: nat)
    requires x < |floors| && x !in winners
    ensures var before := Awarded(floors, winners);
      Awarded(floors, winners + [x]) == before[x := before[x] + 1]
  {
  }

  /** `_points_per_interval`: shares rounded down, then one more point for
      each of the intervals with the largest remainders, as many of them as
      the remainders add up to. No intervals at all give no shares; all
      intervals of length zero make the share a division by zero. */
  function LargestRemainder(n: nat, lengths: seq<nat>): (r: Result<seq<nat>>)
    ensures r.Ok? ==> |r.value| == |lengths|
    ensures r.Err? <==> lengths != [] && Sum(lengths) == 0
    ensures r.Ok? && lengths != [] ==> Sum(lengths) > 0
  {
    SumNonNegative(lengths);
    if lengths == [] then Ok([])
    else if Sum(lengths) == 0 then Err(ZeroDivisionError("float division by zero"))
    else
      var total := Sum(lengths);
      var rems := Remainders(n, lengths, total);
      SumNonNegative(rems);
      DivNonNegative(Sum(rems), total);
      Ok(Split(Floors(n, lengths, total), rems, Sum(rems) / total))
  }

  /** The rounded-down shares `floors` after one more point for each of the
      first `extra` intervals in remainder order. */
  function Split(floors: seq<nat>, rems: seq<nat>, extra: nat): (r: seq<nat>)
    requires |floors| == |rems|
    ensures |r| == |floors|
    ensures forall i :: 0 <= i < |r| ==> r[i] == floors[i] || r[i] == floors[i] + 1
  {
    Awarded(floors, Order(rems)[..if extra < |rems| then extra else |rems|])
  }

  /** When there are enough intervals, exactly `extra` of them get a point. */
  lemma SplitTotal(floors: seq<nat>, rems: seq<nat>, extra: nat)
    requires |floors| == |rems| && extra <= |rems|
    ensures Sum(Split(floors, rems, extra)) == Sum(floors) + extra
  {
    var order := Order(rems);
    var winners := order[..extra];
    forall p, q | 0 <= p < q < |winners|
      ensures winners[p] != winners[q]
    {
      SortedDistinct(rems, order, p, q);
    }
    SumAwarded(floors, winners);
  }

  /** An interval ahead of one that got an extra point got one too. */
  lemma SplitPriority(floors: seq<nat>, rems: seq<nat>, extra: nat, i: nat, j: nat)
    requires |floors| == |rems| && i < |rems| && j < |rems|
    requires Split(floors, rems, extra)[i] > floors[i] && Ahead(rems, j, i)
    ensures Split(floors, rems, extra)[j] > floors[j]
  {
    var order := Order(rems);
    var m := if extra < |rems| then extra else |rems|;
    var winners := order[..m];
    assert i in winners;
    var p :| 0 <= p < m && order[p] == i;
    assert j in order;
    var q :| 0 <= q < |order| && order[q] == j;
    assert q < p;
    assert j in winners;
  }

  // Arithmetic behind the split.

  lemma SumBump(xs: seq<int>, i: nat)
    requires i < |xs|
    ensures Sum(xs[i := xs[i] + 1]) == Sum(xs) + 1
  {
    var k := |xs| - 1;
    if i < k {
      assert xs[i := xs[i] + 1][..k] == xs[..k][i := xs[i] + 1];
      SumBump(xs[..k], i);
    } else {
      assert xs[i := xs[i] + 1][..k] == xs[..k];
    }
  }

  /** Handing one point to each of distinct intervals adds that many points. */
  lemma {:induction false} SumAwarded(floors: seq<nat>, winners: seq<nat>)
    requires forall i :: 0 <= i < |winners| ==> winners[i] < |floors|
    requires forall p, q :: 0 <= p < q < |winners| ==> winners[p] != winners[q]
    ensures Sum(Awarded(floors, winners)) == Sum(floors) + |winners|
  {
    if winners == [] {
      assert Awarded(floors, winners) == floors;
    } else {
      var k := |winners| - 1;
      var w := winners[..k];
      var e := winners[k];
      SumAwarded(floors, w);
      assert e !in w by {
        forall p | 0 <= p < k
          ensures w[p] != e
        {
          assert winners[p] != winners[k];
        }
      }
      var before := Awarded(floors, w);
      assert winners == w + [e];
      AwardedSnoc(floors, w, e);
      SumBump(before, e);
    }
  }

  lemma {:induction false} SumBelow(xs: seq<nat>, b: nat)
    requires forall i :: 0 <= i < |xs| ==> xs[i] < b
    ensures Sum(xs) + |xs| <= |xs| * b
  {
    if xs != [] {
      var init := xs[..|xs| - 1];
      SumBelow(init, b);
      assert |xs| * b == |init| * b + b;
    }
  }

  /** The remainders add up to what rounding down lost in total:
      `total` times the points still to hand out. */
  lemma {:induction false} RemaindersTotal(n: nat, lengths: seq<nat>, total: nat, k: nat)
    requires total > 0 && k <= |lengths|
    ensures Sum(Remainders(n, lengths, total)[..k]) + total * Sum(Floors(n, lengths, total)[..k]) == n * Sum(lengths[..k])
  {
    if k > 0 {
      RemaindersTotal(n, lengths, total, k - 1);
      var rems := Remainders(n, lengths, total);
      var floors := Floors(n, lengths, total);
      SumPrefix(rems, k - 1);
      SumPrefix(floors, k - 1);
      SumPrefix(lengths, k - 1);
      DivMod(n * lengths[k - 1], total);
      AddShare(total, n, Sum(rems[..k - 1]), Sum(floors[..k - 1]), Sum(lengths[..k - 1]),
        rems[k - 1], floors[k - 1], lengths[k - 1]);
    }
  }

  /** One more interval keeps "remainders plus `total` times floors equals
      `n` times lengths". */
  lemma AddShare(total: nat, n: nat, rs: int, fs: int, ls: int, r: int, f: int, l: int)
    requires rs + total * fs == n * ls
    requires r + total * f == n * l
    ensures (rs + r) + total * (fs + f) == n * (ls + l)
  {
    assert total * (fs + f) == total * fs + total * f;
    assert n * (ls + l) == n * ls + n * l;
  }

  /** Euclidean division of `a` by `d`, as the solver needs it spelled out. */
  lemma DivMod(a: nat, d: nat)
    requires d > 0
    ensures a == d * (a / d) + a % d && 0 <= a % d < d
  {
  }

  lemma DivNonNegative(a: nat, d: nat)
    requires d > 0
    ensures a / d >= 0
  {
  }

  lemma MulDiv(c: nat, q: int)
    requires c > 0
    ensures (c * q) / c == q
  {
    var d := (c * q) / c;
    var m := (c * q) % c;
    assert c * q == c * d + m && 0 <= m < c;
    assert c * (q - d) == m;
    if q - d >= 1 {
      MulMonotone(c, 1, q - d);
    } else if q - d <= -1 {
      MulMonotone(c, q - d, -1);
    }
  }

  lemma MulMonotone(c: nat, a: int, b: int)
    requires a <= b
    ensures c * a <= c * b
  {
  }

  lemma MulLess(c: nat, a: int, b: int)
    requires c > 0 && c * a < c * b
    ensures a < b
  {
  }

  /** The number of extra points is what rounding down lost, and there are
      fewer of them than intervals. */
  lemma ExtraPoints(n: nat, lengths: seq<nat>)
    requires lengths != [] && Sum(lengths) > 0
    ensures var total := Sum(lengths);
      var extra := Sum(Remainders(n, lengths, total)) / total;
      extra == n - Sum(Floors(n, lengths, total)) && 0 <= extra < |lengths|
  {
    var total := Sum(lengths);
    var rems := Remainders(n, lengths, total);
    var floors := Floors(n, lengths, total);
    RemaindersTotal(n, lengths, total, |lengths|);
    assert rems[..|lengths|] == rems && floors[..|lengths|] == floors && lengths[..|lengths|] == lengths;
    SumBelow(rems, total);
    SumNonNegative(rems);
    ExtraArith(total, n, Sum(rems), Sum(floors), |lengths|);
  }

  lemma ExtraArith(total: nat, n: int, rs: int, fs: int, k: nat)
    requires total > 0 && k > 0 && rs + total * fs == n * total && 0 <= rs && rs + k <= k * total
    ensures rs / total == n - fs && 0 <= n - fs < k
  {
    assert total * (n - fs) == n * total - total * fs;
    MulDiv(total, n - fs);
    assert k * total == total * k;
    assert total * (n - fs) < total * k;
    MulLess(total, n - fs, k);
    MulLess(total, -1, n - fs);
  }

  /** Every point is handed out: the shares add up to `n`. */
  lemma LargestRemainderTotal(n: nat, lengths: seq<nat>)
    requires lengths != [] && LargestRemainder(n, lengths).Ok?
    ensures Sum(LargestRemainder(n, lengths).value) == n
  {
    var total := Sum(lengths);
    SumNonNegative(lengths);
    var rems := Remainders(n, lengths, total);
    var floors := Floors(n, lengths, total);
    ExtraPoints(n, lengths);
    var extra: nat := Sum(rems) / total;
    assert extra == n - Sum(floors);
    SplitTotal(floors, rems, extra);
    assert LargestRemainder(n, lengths).value == Split(floors, rems, extra);
  }

  /** Each interval gets its proportional share rounded down or rounded
      up, never further than one point from the exact share. */
  lemma LargestRemainderNearShare(n: nat, lengths: seq<nat>, i: nat)
    requires LargestRemainder(n, lengths).Ok? && i < |lengths|
    ensures var share := n * lengths[i] / Sum(lengths);
      var r := LargestRemainder(n, lengths).value;
      r[i] == share || r[i] == share + 1
  {
    var total := Sum(lengths);
    SumNonNegative(lengths);
    var rems := Remainders(n, lengths, total);
    var floors := Floors(n, lengths, total);
    SumNonNegative(rems);
    DivNonNegative(Sum(rems), total);
    var extra: nat := Sum(rems) / total;
    assert LargestRemainder(n, lengths).value == Split(floors, rems, extra);
  }

  /** The extra points go to the largest remainders first: an interval ahead
      of one that got an extra point got one too. */
  lemma LargestRemainderPriority(n: nat, lengths: seq<nat>, i: nat, j: nat)
    requires LargestRemainder(n, lengths).Ok? && i < |lengths| && j < |lengths|
    requires var total := Sum(lengths);
      LargestRemainder(n, lengths).value[i] > Floors(n, lengths, total)[i]
      && Ahead(Remainders(n, lengths, total), j, i)
    ensures var total := Sum(lengths);
      LargestRemainder(n, lengths).value[j] > Floors(n, lengths, total)[j]
  {
    var total := Sum(lengths);
    SumNonNegative(lengths);
    var rems := Remainders(n, lengths, total);
    var floors := Floors(n, lengths, total);
    SumNonNegative(rems);
    DivNonNegative(Sum(rems), total);
    var extra: nat := Sum(rems) / total;
    assert LargestRemainder(n, lengths).value == Split(floors, rems, extra);
    SplitPriority(floors, rems, extra, i, j);
  }

  /** `scanning_list`: the linspace of each interval, with the points split
      by largest remainders. */
  function ScanningListOf(config: LeConfig): (r: Result<seq<SweepPoint>>)
  {
    match LargestRemainder(config.nPoints, Intervals(config))
      case Err(e) => Err(e)
      case Ok(counts) => Ok(Sweep(counts))
  }

  /** The scanning list has one entry per configured point, and it can only
      fail when every interval has length zero. */
  lemma ScanningListLength(config: LeConfig)
    ensures ScanningListOf(config).Ok? ==> |ScanningListOf(config).value| == config.nPoints
    ensures ScanningListOf(config).Err? <==> Sum(Intervals(config)) == 0
  {
    var intervals := Intervals(config);
    if LargestRemainder(config.nPoints, intervals).Ok? {
      var counts := LargestRemainder(config.nPoints, intervals).value;
      LargestRemainderTotal(config.nPoints, intervals);
      SweepLength(counts, |counts| == 1);
    }
  }

  /** The award loop of `_points_per_interval`: one more point for each of
      the first `extra` intervals in order of decreasing remainder. */
  method AwardLargest(points: array<nat>, rems: seq<nat>, extra: nat)
    requires points.Length == |rems| && extra <= |rems|
    modifies points
    ensures points[..] == Awarded(old(points[..]), Order(rems)[..extra])
  {
    ghost var floors := points[..];
    var order := Order(rems);
    assert Awarded(floors, order[..0]) == floors;
    for j := 0 to extra
      invariant points[..] == Awarded(floors, order[..j])
    {
      var winner := order[j];
      assert order[..j + 1] == order[..j] + [winner];
      assert winner !in order[..j] by {
        forall p | 0 <= p < j
          ensures order[p] != winner
        {
          SortedDistinct(rems, order, p, j);
        }
      }
      AwardedSnoc(floors, order[..j], winner);
      ghost var before := points[..];
      points[winner] := points[winner] + 1;
      assert points[..] == before[winner := before[winner] + 1];
    }
  }

  /** `_points_per_interval` as the program runs it: the rounded-down
      shares go into an array, then the intervals in remainder order get one
      more point each, as many of them as the remainders add up to. */
  method PointsPerInterval(n: nat, lengths: seq<nat>) returns (r: Result<seq<nat>>)
    ensures r == LargestRemainder(n, lengths)
  {
    var total := 0;
    for i := 0 to |lengths|
      invariant total == Sum(lengths[..i])
    {
      SumPrefix(lengths, i);
      total := total + lengths[i];
    }
    assert lengths[..|lengths|] == lengths;
    SumNonNegative(lengths);
    if lengths == [] {
      return Ok([]);
    }
    if total == 0 {
      return Err(ZeroDivisionError("float division by zero"));
    }
    var points := new nat[|lengths|];
    var rems: seq<nat> := [];
    for i := 0 to |lengths|
      invariant |rems| == i
      invariant forall k :: 0 <= k < i ==> points[k] == n * lengths[k] / total && rems[k] == n * lengths[k] % total
    {
      points[i] := FloorShare(n, lengths[i], total);
      rems := rems + [n * lengths[i] % total];
    }
    ghost var floors := Floors(n, lengths, total);
    assert points[..] == floors;
    assert rems == Remainders(n, lengths, total);
    var remSum := 0;
    for i := 0 to |rems|
      invariant remSum == Sum(rems[..i])
      invariant points[..] == floors
    {
      SumPrefix(rems, i);
      remSum := remSum + rems[i];
    }
    assert rems[..|rems|] == rems;
    ExtraPoints(n, lengths);
    AwardLargest(points, rems, remSum / total);
    r := Ok(points[..]);
  }

  // ---------------------------------------------------------------------
  // Commands and replies

  const Version: string := "v1"
  const OkResponse: string := "ACK"
  const StartCommand: string := "G"
  const FetchCommand: string := "R"
  const StatusCommand: string := "H"
  const SendListCommand: string := "L"
  const SendSettingsCommand: string := "S"
  const FirmwareVersionCommand: string := "v"

  /** The commands as the bytes written for them. */
  const StartBytes: ByteString := Encode(StartCommand)
  const FetchBytes: ByteString := Encode(FetchCommand)
  const StatusBytes: ByteString := Encode(StatusCommand)
  const ListBytes: ByteString := Encode(SendListCommand)
  const SettingsBytes: ByteString := Encode(SendSettingsCommand)
  const FirmwareBytes: ByteString := Encode(FirmwareVersionCommand)

  /** The two statuses the device reports. */
  const Scanning: Ascii := "Error: Scan is ongoing."
  const Idle: Ascii := "ACK: Idle."

  const NotConnected: string := "Device not connected. Call connect() first."
  /** `get_serial_number` answers without asking the device. */
  const SerialNumber: string := "X-9999"

  /** Calls the retry allows for a reply and for a scan read. */
  const ResponseTries: nat := 3
  const ScanTries: nat := 5

  /** What a command exchange did: its outcome, the bursts the device has
      still to send, and what was written, in order. */
  datatype Exchange<T> = Exchange(result: Result<T>, rest: seq<ByteString>, sent: seq<ByteString>)

  /** `x` ended with `result`, left `rest` of the device's output unread
      and wrote `sent`. */
  predicate Yields<T(==)>(x: Exchange<T>, result: Result<T>, rest: seq<ByteString>, sent: seq<ByteString>)
  {
    x.result == result && x.rest == rest && x.sent == sent
  }

  function Repeat(b: ByteString, k: nat): (r: seq<ByteString>)
    ensures |r| == k && forall i :: 0 <= i < k ==> r[i] == b
  {
    seq(k, _ => b)
  }

  /** A log that gains one more copy of `b` is the log of one more repeat. */
  lemma LogSnoc(log: seq<ByteString>, b: ByteString, k: nat)
    ensures (log + Repeat(b, k)) + [b] == log + Repeat(b, k + 1)
  {
    assert Repeat(b, k + 1) == Repeat(b, k) + [b];
  }

  function EmptyReply(command: string): Error
  {
    SerialException("Command: '" + command + "'. Empty response received")
  }

  /** `_get_response`'s check of a stripped reply: an empty reply is a
      serial fault and, when `checkAck`, a reply not starting with "ACK" is
      a device error. */
  function ReplyCheck(command: string, checkAck: bool, reply: string): (r: Result<string>)
    ensures r.Ok? <==> reply != [] && (checkAck ==> StartsWith(reply, OkResponse))
    ensures r.Ok? ==> r.value == reply
    ensures reply == [] ==> r == Err(EmptyReply(command))
    ensures reply != [] && r.Err? ==> r.error.DeviceComError?
  {
    if |reply| == 0 then Err(EmptyReply(command))
    else if checkAck && reply[..if |reply| < |OkResponse| then |reply| else |OkResponse|] != OkResponse then
      Err(DeviceComError("Command: '" + command + "'. Expected response '" + OkResponse + "', received: '" + reply + "'"))
    else Ok(reply)
  }

  /** `read_until().decode().strip()`: the line decoded strictly and
      stripped; a byte outside ASCII raises the decoder's `ValueError`. */
  function StrippedText(line: ByteString): (r: Result<string>)
    ensures r.Ok? <==> IsAscii(line)
    ensures r.Ok? ==> r.value == Strip(Decode(line))
    ensures r.Err? ==> r.error == ValueError(BadUtf8)
  {
    var text :- Utf8(line);
    Ok(Strip(text))
  }

  /** One call of `_get_response`: a line is read, decoded, stripped and
      checked. A line that does not decode raises before the check, and
      the retry treats it like any other fault. */
  function ResponseAttempt(command: string, checkAck: bool, script: seq<ByteString>): (r: (Result<string>, seq<ByteString>))
    ensures r.1 == ReadLineOf(script).1
    ensures var line := ReadLineOf(script).0;
      && (r.0.Ok? <==> IsAscii(line) && Strip(Decode(line)) != [] && (checkAck ==> StartsWith(Strip(Decode(line)), OkResponse)))
      && (r.0.Ok? ==> r.0.value == Strip(Decode(line)))
      && (!IsAscii(line) ==> r.0 == Err(ValueError(BadUtf8)))
      && (IsAscii(line) && Strip(Decode(line)) == [] ==> r.0 == Err(EmptyReply(command)))
      && (IsAscii(line) && Strip(Decode(line)) != [] && r.0.Err? ==> r.0.error.DeviceComError?)
  {
    var (line, rest) := ReadLineOf(script);
    match StrippedText(line)
    case Err(e) => (Err(e), rest)
    case Ok(reply) => (ReplyCheck(command, checkAck, reply), rest)
  }

  function ResponseStep(command: string, checkAck: bool): seq<ByteString> -> (Result<string>, seq<ByteString>)
  {
    s => ResponseAttempt(command, checkAck, s)
  }

  /** `_get_response` under its retry: up to three reads. */
  function ResponseOn(command: string, checkAck: bool, script: seq<ByteString>): (Result<string>, seq<ByteString>, nat)
  {
    RetryOn(ResponseStep(command, checkAck), script, ResponseTries)
  }

  /** The burst a device sends for a one-line reply. */
  function Line(reply: string): ByteString
    requires IsText(reply)
  {
    Encode(reply) + [LF]
  }

  /** A reply the stripping leaves intact: printable at both ends and on
      one line. */
  predicate Clean(reply: string)
  {
    IsText(reply) && AsciiText(reply) && reply != [] && !IsSpace(reply[0]) && !IsSpace(reply[|reply| - 1])
    && forall k :: 0 <= k < |reply| ==> reply[k] != '\n'
  }

  lemma ReadCleanLine(reply: string, rest: seq<ByteString>)
    requires Clean(reply)
    ensures ReadLineOf(Then(Line(reply), rest)) == (Line(reply), rest)
    ensures IsAscii(Line(reply)) && Strip(Decode(Line(reply))) == reply
  {
    var b := Line(reply);
    assert LineLength(b) == |b|;
    var s := Decode(b);
    assert s == reply + "\n" by {
      DecodeEncode(reply);
      assert Decode(b) == Decode(Encode(reply)) + Decode([LF]);
    }
    assert TrimStart(s) == s;
    assert s[..|s| - 1] == reply;
    assert TrimEnd(s) == TrimEnd(reply);
  }

  /** A clean reply the check accepts is returned on the first read, and
      only its own line is consumed. */
  lemma ResponseOfReply(command: string, checkAck: bool, reply: string, rest: seq<ByteString>)
    requires Clean(reply) && (checkAck ==> StartsWith(reply, OkResponse))
    ensures ResponseOn(command, checkAck, Then(Line(reply), rest)) == (Ok(reply), rest, 1)
  {
    ReadCleanLine(reply, rest);
    SuccessFirstTime(ResponseStep(command, checkAck), Then(Line(reply), rest), ResponseTries);
  }

  /** A read that times out with nothing is retried, and the reply that
      follows it is accepted on the second read. */
  lemma ResponseAfterSilence(command: string, checkAck: bool, reply: string, rest: seq<ByteString>)
    requires Clean(reply) && (checkAck ==> StartsWith(reply, OkResponse))
    ensures ResponseOn(command, checkAck, Then([], Then(Line(reply), rest))) == (Ok(reply), rest, 2)
  {
    var next := Then(Line(reply), rest);
    var script: seq<ByteString> := Then([], next);
    var step := ResponseStep(command, checkAck);
    assert ReadLineOf(script) == ([], next);
    assert Strip(Decode([])) == [];
    assert step(script) == (Err(EmptyReply(command)), next);
    ReadCleanLine(reply, rest);
    assert step(next) == (Ok(reply), rest);
    SuccessSecondTime(step, script, ResponseTries);
  }

  /** A line the strict decoder refuses, "ACK" followed by the byte 0xff
      say, raises a `ValueError` that is retried like an empty read, and
      the reply that follows is accepted on the second read. */
  lemma ResponseAfterUndecodable(command: string, checkAck: bool, bad: ByteString, reply: string, rest: seq<ByteString>)
    requires !IsAscii(bad) && LineLength(bad) == |bad|
    requires Clean(reply) && (checkAck ==> StartsWith(reply, OkResponse))
    ensures ResponseAttempt(command, checkAck, Then(bad, Then(Line(reply), rest))).0 == Err(ValueError(BadUtf8))
    ensures ResponseOn(command, checkAck, Then(bad, Then(Line(reply), rest))) == (Ok(reply), rest, 2)
  {
    var next := Then(Line(reply), rest);
    var script := Then(bad, next);
    var step := ResponseStep(command, checkAck);
    assert ReadLineOf(script) == (bad, next);
    assert step(script) == (Err(ValueError(BadUtf8)), next);
    ReadCleanLine(reply, rest);
    assert step(next) == (Ok(reply), rest);
    SuccessSecondTime(step, script, ResponseTries);
  }

  /** A device that never answers makes all three reads fail, and the
      empty-reply fault is raised. */
  lemma ResponseOfSilence(command: string, checkAck: bool)
    ensures ResponseOn(command, checkAck, []) == (Err(EmptyReply(command)), [], ResponseTries)
  {
    var step := ResponseStep(command, checkAck);
    assert Strip(Decode([])) == [];
    assert step([]) == (Err(EmptyReply(command)), []);
    forall k: nat | k < ResponseTries
      ensures step(Iterate(step, [], k)).0 == Err(EmptyReply(command))
    {
      IterateSilence(step, k, EmptyReply(command));
    }
    PermanentFailure(step, [], ResponseTries);
    IterateSilence(step, ResponseTries - 1, EmptyReply(command));
  }

  lemma {:induction false} IterateSilence<T>(step: seq<ByteString> -> (Result<T>, seq<ByteString>), k: nat, e: Error)
    requires step([]) == (Err(e), [])
    ensures Iterate(step, [], k) == []
  {
    if k > 0 {
      IterateSilence(step, k - 1, e);
    }
  }

  /** A reply never makes the device's output grow, and an accepted one
      consumes something: polling on accepted replies terminates. */
  lemma {:induction false} ResponseShrinks(command: string, checkAck: bool, script: seq<ByteString>, tries: nat)
    requires tries >= 1
    decreases tries
    ensures var r := RetryOn(ResponseStep(command, checkAck), script, tries);
      Pending(r.1) <= Pending(script) && (r.0.Ok? ==> Pending(r.1) < Pending(script))
  {
    var step := ResponseStep(command, checkAck);
    AttemptShrinks(command, checkAck, script);
    assert step(script) == ResponseAttempt(command, checkAck, script);
    if step(script).0.Err? && tries > 1 {
      ResponseShrinks(command, checkAck, step(script).1, tries - 1);
    }
  }

  lemma AttemptShrinks(command: string, checkAck: bool, script: seq<ByteString>)
    ensures var r := ResponseAttempt(command, checkAck, script);
      Pending(r.1) <= Pending(script) && (r.0.Ok? ==> Pending(r.1) < Pending(script))
  {
    var (line, rest) := ReadLineOf(script);
    if script != [] {
      ReadShrinksPending(script, LineLength(script[0]));
    }
    assert line == [] ==> Strip(Decode(line)) == [];
  }

  // ---------------------------------------------------------------------
  // Status

  /** Both statuses are single lines that stripping leaves as they are. */
  lemma StatusesClean()
    ensures Clean(Scanning) && Clean(Idle)
  {
  }

  /** `get_status`'s check of the reply: exactly one of the two statuses. */
  function StatusOf(reply: Result<string>): (r: Result<string>)
    ensures r.Ok? <==> reply.Ok? && (reply.value == Scanning || reply.value == Idle)
    ensures r.Ok? ==> r.value == reply.value
    ensures reply.Ok? && r.Err? ==> r.error == DeviceComError("Unknown status: " + reply.value)
    ensures reply.Err? ==> r == reply
  {
    match reply
      case Err(e) => Err(e)
      case Ok(s) =>
        if s == Scanning then Ok(Scanning)
        else if s == Idle then Ok(Idle)
        else Err(DeviceComError("Unknown status: " + s))
  }

  /** `get_status`: "H", then the reply without the ACK check. */
  function StatusOn(script: seq<ByteString>): (r: Exchange<string>)
  {
    var (reply, rest, _) := ResponseOn(StatusCommand, false, script);
    Exchange(StatusOf(reply), rest, [StatusBytes])
  }

  /** Both statuses are read back as themselves. */
  lemma StatusOfStatusLine(status: string, rest: seq<ByteString>)
    requires status == Scanning || status == Idle
    ensures Yields(StatusOn(Then(Line(status), rest)), Ok(status), rest, [StatusBytes])
  {
    StatusesClean();
    ResponseOfReply(StatusCommand, false, status, rest);
  }

  /** `_await_scan_finished`: ask for the status (without the ACK check)
      until the reply is anything but the scanning status. A failed status
      read ends the wait with its fault. */
  function AwaitOn(script: seq<ByteString>): (r: Exchange<()>)
    ensures |r.sent| >= 1 && forall k :: 0 <= k < |r.sent| ==> r.sent[k] == StatusBytes
    decreases Pending(script)
  {
    var (status, rest, _) := ResponseOn(StatusCommand, false, script);
    if status.Err? then Exchange(Err(status.error), rest, [StatusBytes])
    else if status.value != Scanning then Exchange(Ok(()), rest, [StatusBytes])
    else
      ResponseShrinks(StatusCommand, false, script, ResponseTries);
      var more := AwaitOn(rest);
      Exchange(more.result, more.rest, [StatusBytes] + more.sent)
  }

  /** What is left of `_await_scan_finished` once a status has been read:
      nothing when it failed or is not the scanning status, otherwise more
      polling. */
  function AwaitAfter(status: Result<string>, script: seq<ByteString>): Exchange<()>
  {
    if status.Err? then Exchange(Err(status.error), script, [])
    else if status.value != Scanning then Exchange(Ok(()), script, [])
    else AwaitOn(script)
  }

  /** One poll of the wait: its status and what follows it. */
  lemma AwaitUnfold(script: seq<ByteString>, status: Result<string>, rest: seq<ByteString>)
    requires status == ResponseOn(StatusCommand, false, script).0 && rest == ResponseOn(StatusCommand, false, script).1
    ensures var x := AwaitOn(script);
      var y := AwaitAfter(status, rest);
      x.result == y.result && x.rest == y.rest && x.sent == [StatusBytes] + y.sent
  {
  }

  /** Waiting stops at the first status that is not the scanning status,
      even one `get_status` would reject as unknown. */
  lemma AwaitStopsOnOtherStatus(reply: string, rest: seq<ByteString>)
    requires Clean(reply) && reply != Scanning
    ensures Yields(AwaitOn(Then(Line(reply), rest)), Ok(()), rest, [StatusBytes])
  {
    ResponseOfReply(StatusCommand, false, reply, rest);
  }

  /** The scanning status means one more poll. */
  lemma AwaitPollsWhileScanning(rest: seq<ByteString>)
    ensures var more := AwaitOn(rest);
      Yields(AwaitOn(Then(Line(Scanning), rest)), more.result, more.rest, [StatusBytes] + more.sent)
  {
    StatusesClean();
    ResponseOfReply(StatusCommand, false, Scanning, rest);
  }

  /** A device that reports a scan in progress twice and then idle is
      polled three times. */
  lemma AwaitThreePolls(rest: seq<ByteString>)
    ensures Yields(AwaitOn(Then(Line(Scanning), Then(Line(Scanning), Then(Line(Idle), rest)))),
      Ok(()), rest, [StatusBytes, StatusBytes, StatusBytes])
  {
    assert [StatusBytes] + ([StatusBytes] + [StatusBytes]) == [StatusBytes, StatusBytes, StatusBytes];
    StatusesClean();
    AwaitStopsOnOtherStatus(Idle, rest);
    var s2 := Then(Line(Idle), rest);
    var s1 := Then(Line(Scanning), s2);
    AwaitPollsWhileScanning(s2);
    AwaitPollsWhileScanning(s1);
  }

  // ---------------------------------------------------------------------
  // Scan data

  /** `_read_scan`'s result: delays, X and Y as float32 words. */
  datatype ScanTriple = ScanTriple(times: seq<Word>, xs: seq<Word>, ys: seq<Word>)

  /** `_bytes_to_floats`: the 4-byte words of `bs[from..to]`. */
  function BytesToFloats(bs: seq<int>, from: nat, to: nat): (r: seq<Word>)
    requires IsBytes(bs) && from <= to <= |bs| && (to - from) % 4 == 0
    ensures |r| == (to - from) / 4 && Flatten(r) == bs[from..to]
  {
    FlattenWords(bs[from..to]);
    Words(bs[from..to])
  }

  /** The bytes a device sends for a scan. */
  function ScanBytes(t: ScanTriple): ByteString
  {
    Flatten(t.times) + Flatten(t.xs) + Flatten(t.ys)
  }

  predicate HasPoints(t: ScanTriple, n: nat)
  {
    |t.times| == n && |t.xs| == n && |t.ys| == n
  }

  /** `_read_scan`'s check of the bytes read: exactly `12 * n` of them,
      cut into three arrays of `n` floats; a short read is a serial fault. */
  function ScanOf(n: nat, data: ByteString): (r: Result<ScanTriple>)
    ensures r.Ok? <==> |data| == 12 * n
    ensures r.Ok? ==> HasPoints(r.value, n) && ScanBytes(r.value) == data
    ensures r.Err? ==> r.error.SerialException?
  {
    if |data| != 12 * n then
      Err(SerialException("received " + NatToString(|data|) + " bytes, expected " + NatToString(12 * n)))
    else
      assert data == data[0..4 * n] + data[4 * n..8 * n] + data[8 * n..12 * n];
      Ok(ScanTriple(BytesToFloats(data, 0, 4 * n), BytesToFloats(data, 4 * n, 8 * n), BytesToFloats(data, 8 * n, 12 * n)))
  }

  /** One call of `_read_scan` after its "R" is written: a read of
      `12 * n` bytes, then the check. */
  function ScanAttempt(n: nat, script: seq<ByteString>): (r: (Result<ScanTriple>, seq<ByteString>))
    ensures r.1 == ReadOf(script, 12 * n).1
    ensures var data := ReadOf(script, 12 * n).0;
      && (r.0.Ok? <==> |data| == 12 * n)
      && (r.0.Ok? ==> HasPoints(r.0.value, n) && ScanBytes(r.0.value) == data)
      && (r.0.Err? ==> r.0.error.SerialException?)
  {
    var (data, rest) := ReadOf(script, 12 * n);
    (ScanOf(n, data), rest)
  }

  function ScanStep(n: nat): seq<ByteString> -> (Result<ScanTriple>, seq<ByteString>)
  {
    s => ScanAttempt(n, s)
  }

  /** `_read_scan` under its retry: up to five requests, each writing "R". */
  function ReadScanOn(n: nat, script: seq<ByteString>): (r: Exchange<ScanTriple>)
    ensures 1 <= |r.sent| <= ScanTries
  {
    var (res, rest, calls) := RetryOn(ScanStep(n), script, ScanTries);
    Exchange(res, rest, Repeat(FetchBytes, calls))
  }

  /** The three arrays a device sends come back as they were sent. */
  lemma ScanRoundTrip(n: nat, t: ScanTriple, rest: seq<ByteString>)
    requires HasPoints(t, n)
    ensures ScanAttempt(n, Then(ScanBytes(t), rest)) == (Ok(t), rest)
    ensures Yields(ReadScanOn(n, Then(ScanBytes(t), rest)), Ok(t), rest, [FetchBytes])
  {
    var b := ScanBytes(t);
    assert b[0..4 * n] == Flatten(t.times);
    assert b[4 * n..8 * n] == Flatten(t.xs);
    assert b[8 * n..12 * n] == Flatten(t.ys);
    WordsFlatten(t.times);
    WordsFlatten(t.xs);
    WordsFlatten(t.ys);
    SuccessFirstTime(ScanStep(n), Then(b, rest), ScanTries);
  }

  /** A first request answered with nothing is repeated, and the scan that
      follows is read on the second request. */
  lemma ScanAfterSilence(n: nat, t: ScanTriple, rest: seq<ByteString>)
    requires n > 0 && HasPoints(t, n)
    ensures Yields(ReadScanOn(n, Then([], Then(ScanBytes(t), rest))), Ok(t), rest, [FetchBytes, FetchBytes])
  {
    var script: seq<ByteString> := Then([], Then(ScanBytes(t), rest));
    ScanRoundTrip(n, t, rest);
    SuccessSecondTime(ScanStep(n), script, ScanTries);
  }

  /** A device that sends nothing gets five requests, and the short read is
      raised. */
  lemma ScanOfSilence(n: nat)
    requires n > 0
    ensures Yields(ReadScanOn(n, []), Err(ShortScan(n)), [], Repeat(FetchBytes, ScanTries))
  {
    var step := ScanStep(n);
    ScanAttemptOfSilence(n);
    forall k: nat | k < ScanTries
      ensures step(Iterate(step, [], k)).0 == Err(ShortScan(n))
    {
      IterateSilence(step, k, ShortScan(n));
    }
    PermanentFailure(step, [], ScanTries);
    IterateSilence(step, ScanTries - 1, ShortScan(n));
  }

  /** The fault of a read that returns nothing. */
  function ShortScan(n: nat): Error
  {
    SerialException("received " + NatToString(0) + " bytes, expected " + NatToString(12 * n))
  }

  lemma ScanAttemptOfSilence(n: nat)
    requires n > 0
    ensures ScanAttempt(n, []) == (Err(ShortScan(n)), [])
  {
    assert ReadOf([], 12 * n) == ([], []);
  }

  // ---------------------------------------------------------------------
  // Whole commands

  /** `write_settings`' three values: list length, integration periods and
      the EMA flag as 0 or 1. */
  function SettingsValues(config: LeConfig): seq<int>
  {
    [config.nPoints, config.integrationPeriods, if config.useEma then 1 else 0]
  }

  const FieldRange: string := "value does not fit an unsigned 16-bit field"

  /** `write_settings`: "S" and its ACK, the three values as little-endian
      uint16s in one write, then a second ACK. */
  function SettingsOn(config: LeConfig, script: seq<ByteString>): (r: Exchange<string>)
  {
    var (ack, s1, _) := ResponseOn(SendSettingsCommand, true, script);
    var values := SettingsValues(config);
    if ack.Err? then Exchange(Err(ack.error), s1, [SettingsBytes])
    else if !AllU16(values) then Exchange(Err(ValueError(FieldRange)), s1, [SettingsBytes])
    else
      var (reply, s2, _) := ResponseOn(SendSettingsCommand, true, s1);
      Exchange(reply, s2, [SettingsBytes, PackLE16(values)])
  }

  /** Settings that were acknowledged went out as the three values, which
      the device reads back unchanged, and the reply is an ACK. */
  lemma SettingsSent(config: LeConfig, script: seq<ByteString>)
    requires SettingsOn(config, script).result.Ok?
    ensures AllU16(SettingsValues(config))
    ensures SettingsOn(config, script).sent == [SettingsBytes, PackLE16(SettingsValues(config))]
    ensures UnpackLE16(PackLE16(SettingsValues(config))) == SettingsValues(config)
    ensures StartsWith(SettingsOn(config, script).result.value, OkResponse)
  {
    var (ack, s1, _) := ResponseOn(SendSettingsCommand, true, script);
    SuccessOfAck(SendSettingsCommand, s1);
    UnpackPackLE16(SettingsValues(config));
  }

  /** Whatever an ACK-checked read returns starts with "ACK". */
  lemma SuccessOfAck(command: string, script: seq<ByteString>)
    ensures var r := ResponseOn(command, true, script).0;
      r.Ok? ==> StartsWith(r.value, OkResponse)
  {
    var step := ResponseStep(command, true);
    if ResponseOn(command, true, script).0.Ok? {
      SuccessIsFirst(step, script, ResponseTries);
      var last := Iterate(step, script, RetryOn(step, script, ResponseTries).2 - 1);
      assert step(last) == ResponseAttempt(command, true, last);
    }
  }

  /** `write_list`: "L" and its ACK, every scanning-list delay as a
      little-endian float32 in one write, then a second ACK. */
  function ListOn(config: LeConfig, float32: SweepPoint -> Word, script: seq<ByteString>): (r: Exchange<string>)
  {
    var (ack, s1, _) := ResponseOn(SendListCommand, true, script);
    if ack.Err? then Exchange(Err(ack.error), s1, [ListBytes])
    else match ScanningListOf(config)
      case Err(e) => Exchange(Err(e), s1, [ListBytes])
      case Ok(list) =>
        var (reply, s2, _) := ResponseOn(SendListCommand, true, s1);
        Exchange(reply, s2, [ListBytes, Flatten(Floats32(list, float32))])
  }

  /** An acknowledged list went out as one float32 per configured point,
      and the device reads those words back from the bytes written. */
  lemma ListSent(config: LeConfig, float32: SweepPoint -> Word, script: seq<ByteString>)
    requires ListOn(config, float32, script).result.Ok?
    ensures ScanningListOf(config).Ok?
    ensures var words := Floats32(ScanningListOf(config).value, float32);
      |words| == config.nPoints && ListOn(config, float32, script).sent == [ListBytes, Flatten(words)]
      && Words(Flatten(words)) == words
  {
    ScanningListLength(config);
    WordsFlatten(Floats32(ScanningListOf(config).value, float32));
  }

  /** `start_scan`: "G" and its ACK, wait for the scan to finish, then read
      it. The conversion of X and Y to radii and angles is not modelled. */
  function StartOn(n: nat, script: seq<ByteString>): (r: Exchange<ScanTriple>)
  {
    var (ack, s1, _) := ResponseOn(StartCommand, true, script);
    if ack.Err? then Exchange(Err(ack.error), s1, [StartBytes])
    else
      var wait := AwaitOn(s1);
      if wait.result.Err? then Exchange(Err(wait.result.error), wait.rest, [StartBytes] + wait.sent)
      else
        var data := ReadScanOn(n, wait.rest);
        Exchange(data.result, data.rest, [StartBytes] + wait.sent + data.sent)
  }

  /** `start_scan`'s outcome on each of its three paths, given the
      acknowledgement `ack` and the output `s1` left after it. */
  lemma StartUnfold(n: nat, script: seq<ByteString>, ack: Result<string>, s1: seq<ByteString>)
    requires ack == ResponseOn(StartCommand, true, script).0 && s1 == ResponseOn(StartCommand, true, script).1
    ensures ack.Err? ==> Yields(StartOn(n, script), Err(ack.error), s1, [StartBytes])
    ensures ack.Ok? && AwaitOn(s1).result.Err? ==>
      Yields(StartOn(n, script), Err(AwaitOn(s1).result.error), AwaitOn(s1).rest, [StartBytes] + AwaitOn(s1).sent)
    ensures ack.Ok? && AwaitOn(s1).result.Ok? ==> var data := ReadScanOn(n, AwaitOn(s1).rest);
      Yields(StartOn(n, script), data.result, data.rest, [StartBytes] + AwaitOn(s1).sent + data.sent)
  {
  }

  /** `start_scan` chains its three exchanges: the ACK, the wait and the
      read. */
  lemma StartOfSteps(n: nat, script: seq<ByteString>, s1: seq<ByteString>, s2: seq<ByteString>, t: ScanTriple, rest: seq<ByteString>)
    requires ResponseOn(StartCommand, true, script).0.Ok? && ResponseOn(StartCommand, true, script).1 == s1
    requires Yields(AwaitOn(s1), Ok(()), s2, [StatusBytes])
    requires Yields(ReadScanOn(n, s2), Ok(t), rest, [FetchBytes])
    ensures Yields(StartOn(n, script), Ok(t), rest, [StartBytes] + [StatusBytes] + [FetchBytes])
  {
  }

  /** A whole scan against a well-behaved device: the start is
      acknowledged, the device is idle at the first poll, and the scan is
      read on the first request. */
  lemma StartOfReadyDevice(n: nat, ack: string, t: ScanTriple, rest: seq<ByteString>)
    requires Clean(ack) && StartsWith(ack, OkResponse) && HasPoints(t, n)
    ensures Yields(StartOn(n, Then(Line(ack), Then(Line(Idle), Then(ScanBytes(t), rest)))),
      Ok(t), rest, [StartBytes, StatusBytes, FetchBytes])
  {
    assert [StartBytes] + [StatusBytes] + [FetchBytes] == [StartBytes, StatusBytes, FetchBytes];
    var s2 := Then(ScanBytes(t), rest);
    var s1 := Then(Line(Idle), s2);
    ResponseOfReply(StartCommand, true, ack, s1);
    StatusesClean();
    AwaitStopsOnOtherStatus(Idle, s2);
    ScanRoundTrip(n, t, rest);
    StartOfSteps(n, Then(Line(ack), s1), s1, s2, t, rest);
  }


  /** `get_firmware_version`: "v", then one line, stripped, without retry
      or check. */
  function FirmwareOn(script: seq<ByteString>): (r: Exchange<string>)
  {
    var (line, rest) := ReadLineOf(script);
    Exchange(StrippedText(line), rest, [FirmwareBytes])
  }

  lemma FirmwareOfLine(version: string, rest: seq<ByteString>)
    requires Clean(version)
    ensures Yields(FirmwareOn(Then(Line(version), rest)), Ok(version), rest, [FirmwareBytes])
  {
    ReadCleanLine(version, rest);
    var script := Then(Line(version), rest);
    var (line, after) := ReadLineOf(script);
    assert line == Line(version) && after == rest;
  }

  /** A firmware line that does not decode raises the decoder's
      `ValueError`; nothing retries it. */
  lemma FirmwareOfUndecodable(bad: ByteString, rest: seq<ByteString>)
    requires !IsAscii(bad) && LineLength(bad) == |bad|
    ensures Yields(FirmwareOn(Then(bad, rest)), Err(ValueError(BadUtf8)), rest, [FirmwareBytes])
  {
    assert ReadLineOf(Then(bad, rest)) == (bad, rest);
  }

  // ---------------------------------------------------------------------
  // The protocol object

  class LeProtocolV1 {
    const config: LeConfig
    /** The open port; `null` before `connect` and after `disconnect`. */
    var ser: Serial?

    constructor (config: LeConfig)
      ensures this.config == config && ser == null
    {
      this.config := config;
      ser := null;
    }

    /** `scanning_list`: the linspace of each interval, with the points
        split by `_points_per_interval`. */
    method ScanningList() returns (r: Result<seq<SweepPoint>>)
      ensures r == ScanningListOf(config)
    {
      var intervals := Intervals(config);
      var counts :- PointsPerInterval(config.nPoints, intervals);
      var endpoint := |intervals| == 1;
      var list: seq<SweepPoint> := [];
      for i := 0 to |counts|
        invariant list == SweepOf(counts[..i], endpoint)
      {
        assert counts[..i + 1][..i] == counts[..i];
        list := list + Linspace(i, counts[i], endpoint);
      }
      assert counts[..|counts|] == counts;
      r := Ok(list);
    }

    /** `bytes_to_receive`: three float32 arrays of one value per point. */
    function BytesToReceive(): (n: nat)
      ensures n == 3 * (4 * config.nPoints)
    {
      config.nPoints * 12
    }

    /** `connect`: the port the factory returns replaces the current one;
        when the factory fails, its error is raised and nothing changes. */
    method Connect(port: Result<Serial>) returns (r: Result<()>)
      modifies this
      ensures port.Ok? ==> r == Ok(()) && ser == port.value
      ensures port.Err? ==> r == Err(port.error) && ser == old(ser)
    {
      if port.Err? {
        return Err(port.error);
      }
      ser := port.value;
      r := Ok(());
    }

    /** `disconnect`: closes and forgets the port; nothing to do when
        already disconnected. */
    method Disconnect()
      modifies this, ser
      ensures ser == null
      ensures old(ser) != null ==> !old(ser).isOpen && old(ser).script == old(ser.script) && old(ser).written == old(ser.written)
    {
      if ser != null {
        ser.Close();
        ser := null;
      }
    }

    /** `_encode_and_send`: the command's bytes in one write. */
    method EncodeAndSend(command: string) returns (r: Result<()>)
      requires IsText(command)
      modifies ser
      ensures ser == null ==> r == Err(DeviceComError(NotConnected))
      ensures ser != null ==> r == Ok(()) && ser.written == old(ser.written) + [Encode(command)]
      ensures ser != null ==> ser.script == old(ser.script) && ser.timeout == old(ser.timeout) && ser.isOpen == old(ser.isOpen)
    {
      if ser == null {
        return Err(DeviceComError(NotConnected));
      }
      ser.Write(Encode(command));
      r := Ok(());
    }

    /** One call of `_get_response`: a line is read, decoded, stripped
        and checked. */
    method GetResponseOnce(command: string, checkAck: bool) returns (r: Result<string>)
      modifies ser
      ensures ser == null ==> r == Err(DeviceComError(NotConnected))
      ensures ser != null ==> var x := ResponseAttempt(command, checkAck, old(ser.script));
        r == x.0 && ser.script == x.1
      ensures ser != null ==> ser.written == old(ser.written) && ser.timeout == old(ser.timeout) && ser.isOpen == old(ser.isOpen)
    {
      if ser == null {
        return Err(DeviceComError(NotConnected));
      }
      var line := ser.ReadUntil();
      var text := Utf8(line);
      if text.Err? {
        return Err(text.error);
      }
      r := ReplyCheck(command, checkAck, Strip(text.value));
    }

    /** `_get_response` under its retry: a rejected reply is followed by
        another read, up to three reads in all. */
    method GetResponse(command: string, checkAck: bool) returns (r: Result<string>)
      modifies ser
      ensures ser == null ==> r == Err(DeviceComError(NotConnected))
      ensures ser != null ==> var x := ResponseOn(command, checkAck, old(ser.script));
        r == x.0 && ser.script == x.1
      ensures ser != null ==> ser.written == old(ser.written) && ser.timeout == old(ser.timeout) && ser.isOpen == old(ser.isOpen)
    {
      if ser == null {
        return Err(DeviceComError(NotConnected));
      }
      ghost var step := ResponseStep(command, checkAck);
      ghost var s0 := ser.script;
      var left := ResponseTries;
      while true
        invariant Resumes(step, s0, ResponseTries, ser.script, left)
        invariant ser.written == old(ser.written) && ser.timeout == old(ser.timeout) && ser.isOpen == old(ser.isOpen)
        decreases left
      {
        ghost var before := ser.script;
        var reply := GetResponseOnce(command, checkAck);
        assert step(before) == (reply, ser.script);
        RetryStep(step, s0, ResponseTries, before, left);
        if reply.Ok? || left == 1 {
          return reply;
        }
        left := left - 1;
      }
    }

    /** `_encode_send_response`: the command, then its reply. */
    method EncodeSendResponse(command: string, checkAck: bool) returns (r: Result<string>)
      requires IsText(command)
      modifies ser
      ensures ser == null ==> r == Err(DeviceComError(NotConnected))
      ensures ser != null ==> var x := ResponseOn(command, checkAck, old(ser.script));
        r == x.0 && ser.script == x.1
      ensures ser != null ==> ser.written == old(ser.written) + [Encode(command)]
      ensures ser != null ==> ser.timeout == old(ser.timeout) && ser.isOpen == old(ser.isOpen)
    {
      var sent := EncodeAndSend(command);
      if sent.Err? {
        return Err(sent.error);
      }
      r := GetResponse(command, checkAck);
    }

    /** `get_status`: one of the two statuses, or a device error. */
    method GetStatus() returns (r: Result<string>)
      modifies ser
      ensures ser == null ==> r == Err(DeviceComError(NotConnected))
      ensures ser != null ==> var x := StatusOn(old(ser.script));
        r == x.result && ser.script == x.rest && ser.written == old(ser.written) + x.sent
      ensures ser != null ==> ser.timeout == old(ser.timeout) && ser.isOpen == old(ser.isOpen)
    {
      if ser == null {
        return Err(DeviceComError(NotConnected));
      }
      var reply := EncodeSendResponse(StatusCommand, false);
      r := StatusOf(reply);
    }

    /** `_await_scan_finished`: polls the status while it is the scanning
        status. The sleeps between polls are not modelled. */
    method AwaitScanFinished() returns (r: Result<()>)
      modifies ser
      ensures ser == null ==> r == Err(DeviceComError(NotConnected))
      ensures ser != null ==> var x := AwaitOn(old(ser.script));
        r == x.result && ser.script == x.rest && ser.written == old(ser.written) + x.sent
      ensures ser != null ==> ser.timeout == old(ser.timeout) && ser.isOpen == old(ser.isOpen)
    {
      if ser == null {
        return Err(DeviceComError(NotConnected));
      }
      ghost var start := ser.script;
      var status := EncodeSendResponse(StatusCommand, false);
      AwaitUnfold(start, status, ser.script);
      ghost var polls: seq<ByteString> := [StatusBytes];
      while status.Ok? && status.value == Scanning
        invariant ser.written == old(ser.written) + polls
        invariant ser.timeout == old(ser.timeout) && ser.isOpen == old(ser.isOpen)
        invariant AwaitOn(old(ser.script)).result == AwaitAfter(status, ser.script).result
        invariant AwaitOn(old(ser.script)).rest == AwaitAfter(status, ser.script).rest
        invariant AwaitOn(old(ser.script)).sent == polls + AwaitAfter(status, ser.script).sent
        decreases Pending(ser.script), if status.Ok? && status.value == Scanning then 1 else 0
      {
        ghost var before := ser.script;
        assert AwaitAfter(status, before) == AwaitOn(before);
        status := EncodeSendResponse(StatusCommand, false);
        AppendAssoc(old(ser.written), polls, [StatusBytes]);
        AppendAssoc(polls, [StatusBytes], AwaitAfter(status, ser.script).sent);
        ResponseShrinks(StatusCommand, false, before, ResponseTries);
        AwaitUnfold(before, status, ser.script);
        polls := polls + [StatusBytes];
      }
      r := if status.Err? then Err(status.error) else Ok(());
    }

    /** One call of `_read_scan`: "R", then a read of `bytes_to_receive`
        bytes, checked and cut into three arrays. */
    method ReadScanOnce() returns (r: Result<ScanTriple>)
      modifies ser
      ensures ser == null ==> r == Err(DeviceComError(NotConnected))
      ensures ser != null ==> var x := ScanAttempt(config.nPoints, old(ser.script));
        r == x.0 && ser.script == x.1
      ensures ser != null ==> ser.written == old(ser.written) + [FetchBytes]
      ensures ser != null ==> ser.timeout == old(ser.timeout) && ser.isOpen == old(ser.isOpen)
    {
      var sent := EncodeAndSend(FetchCommand);
      if sent.Err? {
        return Err(sent.error);
      }
      var data := ser.Read(BytesToReceive());
      r := ScanOf(config.nPoints, data);
    }

    /** `_read_scan` under its retry: a short read is followed by another
        request, up to five in all. */
    method ReadScan() returns (r: Result<ScanTriple>)
      modifies ser
      ensures ser == null ==> r == Err(DeviceComError(NotConnected))
      ensures ser != null ==> var x := ReadScanOn(config.nPoints, old(ser.script));
        r == x.result && ser.script == x.rest && ser.written == old(ser.written) + x.sent
      ensures ser != null ==> ser.timeout == old(ser.timeout) && ser.isOpen == old(ser.isOpen)
    {
      if ser == null {
        return Err(DeviceComError(NotConnected));
      }
      ghost var step := ScanStep(config.nPoints);
      ghost var s0 := ser.script;
      ghost var log := ser.written;
      var left := ScanTries;
      while true
        invariant Resumes(step, s0, ScanTries, ser.script, left)
        invariant ser.written == log + Repeat(FetchBytes, ScanTries - left)
        invariant ser.timeout == old(ser.timeout) && ser.isOpen == old(ser.isOpen)
        decreases left
      {
        ghost var before := ser.script;
        var scan := ReadScanOnce();
        assert step(before) == (scan, ser.script);
        RetryStep(step, s0, ScanTries, before, left);
        LogSnoc(log, FetchBytes, ScanTries - left);
        if scan.Ok? || left == 1 {
          return scan;
        }
        left := left - 1;
      }
    }

    /** `_raw_byte_send_ints`: the values as little-endian uint16s in one
        write; a value out of range is refused before anything is written. */
    method RawByteSendInts(values: seq<int>) returns (r: Result<()>)
      modifies ser
      ensures ser == null ==> r == Err(DeviceComError(NotConnected))
      ensures ser != null ==> ser.script == old(ser.script) && ser.timeout == old(ser.timeout) && ser.isOpen == old(ser.isOpen)
      ensures ser != null && AllU16(values) ==> r == Ok(()) && ser.written == old(ser.written) + [PackLE16(values)]
      ensures ser != null && !AllU16(values) ==> r == Err(ValueError(FieldRange)) && ser.written == old(ser.written)
    {
      if ser == null {
        return Err(DeviceComError(NotConnected));
      }
      var c: ByteString := [];
      for i := 0 to |values|
        invariant AllU16(values[..i]) && c == PackLE16(values[..i])
        modifies {}
      {
        if !IsU16(values[i]) {
          return Err(ValueError(FieldRange));
        }
        PackLE16Snoc(values[..i], values[i]);
        assert values[..i + 1] == values[..i] + [values[i]];
        c := c + LE16(values[i]);
      }
      assert values[..|values|] == values;
      ser.Write(c);
      r := Ok(());
    }

    /** `_raw_byte_send_floats`: the float32 words in one write. */
    method RawByteSendFloats(values: seq<Word>) returns (r: Result<()>)
      modifies ser
      ensures ser == null ==> r == Err(DeviceComError(NotConnected))
      ensures ser != null ==> r == Ok(()) && ser.written == old(ser.written) + [Flatten(values)]
      ensures ser != null ==> ser.script == old(ser.script) && ser.timeout == old(ser.timeout) && ser.isOpen == old(ser.isOpen)
    {
      if ser == null {
        return Err(DeviceComError(NotConnected));
      }
      var c: ByteString := [];
      for i := 0 to |values|
        invariant c == Flatten(values[..i])
        modifies {}
      {
        FlattenSnoc(values[..i], values[i]);
        assert values[..i + 1] == values[..i] + [values[i]];
        c := c + values[i];
      }
      assert values[..|values|] == values;
      ser.Write(c);
      r := Ok(());
    }

    /** `write_settings`. */
    method WriteSettings() returns (r: Result<string>)
      modifies ser
      ensures ser == null ==> r == Err(DeviceComError(NotConnected))
      ensures ser != null ==> var x := SettingsOn(config, old(ser.script));
        r == x.result && ser.script == x.rest && ser.written == old(ser.written) + x.sent
      ensures ser != null ==> ser.timeout == old(ser.timeout) && ser.isOpen == old(ser.isOpen)
    {
      if ser == null {
        return Err(DeviceComError(NotConnected));
      }
      var ack := EncodeSendResponse(SendSettingsCommand, true);
      if ack.Err? {
        return Err(ack.error);
      }
      var sent := RawByteSendInts(SettingsValues(config));
      if sent.Err? {
        return Err(sent.error);
      }
      r := GetResponse(SendSettingsCommand, true);
    }

    /** `write_list`; `float32` gives the bit pattern of each delay. */
    method WriteList(float32: SweepPoint -> Word) returns (r: Result<string>)
      modifies ser
      ensures ser == null ==> r == Err(DeviceComError(NotConnected))
      ensures ser != null ==> var x := ListOn(config, float32, old(ser.script));
        r == x.result && ser.script == x.rest && ser.written == old(ser.written) + x.sent
      ensures ser != null ==> ser.timeout == old(ser.timeout) && ser.isOpen == old(ser.isOpen)
    {
      if ser == null {
        return Err(DeviceComError(NotConnected));
      }
      var ack := EncodeSendResponse(SendListCommand, true);
      if ack.Err? {
        return Err(ack.error);
      }
      var list := ScanningList();
      if list.Err? {
        return Err(list.error);
      }
      var sent := RawByteSendFloats(Floats32(list.value, float32));
      r := GetResponse(SendListCommand, true);
    }

    /** `start_scan`. The conversion of X and Y to radii and angles is not
        modelled: the scan comes back as read. */
    method StartScan() returns (r: Result<ScanTriple>)
      modifies ser
      ensures ser == null ==> r == Err(DeviceComError(NotConnected))
      ensures ser != null ==> var x := StartOn(config.nPoints, old(ser.script));
        r == x.result && ser.script == x.rest && ser.written == old(ser.written) + x.sent
      ensures ser != null ==> ser.timeout == old(ser.timeout) && ser.isOpen == old(ser.isOpen)
    {
      if ser == null {
        return Err(DeviceComError(NotConnected));
      }
      ghost var s0 := ser.script;
      ghost var log := ser.written;
      var ack := EncodeSendResponse(StartCommand, true);
      StartUnfold(config.nPoints, s0, ack, ser.script);
      if ack.Err? {
        return Err(ack.error);
      }
      ghost var wait := AwaitOn(ser.script);
      var waited := AwaitScanFinished();
      AppendAssoc(log, [StartBytes], wait.sent);
      if waited.Err? {
        return Err(waited.error);
      }
      ghost var data := ReadScanOn(config.nPoints, ser.script);
      r := ReadScan();
      AppendAssoc(log, [StartBytes] + wait.sent, data.sent);
    }

    /** `fetch_data`: one scan read. */
    method FetchData() returns (r: Result<ScanTriple>)
      modifies ser
      ensures ser == null ==> r == Err(DeviceComError(NotConnected))
      ensures ser != null ==> var x := ReadScanOn(config.nPoints, old(ser.script));
        r == x.result && ser.script == x.rest && ser.written == old(ser.written) + x.sent
      ensures ser != null ==> ser.timeout == old(ser.timeout) && ser.isOpen == old(ser.isOpen)
    {
      if ser == null {
        return Err(DeviceComError(NotConnected));
      }
      r := ReadScan();
    }

    /** `get_serial_number`: a constant; the device is not asked. */
    function GetSerialNumber(): (sn: string)
      ensures sn == SerialNumber
    {
      SerialNumber
    }

    /** `get_firmware_version`: "v", then one line, stripped. */
    method GetFirmwareVersion() returns (r: Result<string>)
      modifies ser
      ensures ser == null ==> r == Err(DeviceComError(NotConnected))
      ensures ser != null ==> var x := FirmwareOn(old(ser.script));
        r == x.result && ser.script == x.rest && ser.written == old(ser.written) + x.sent
      ensures ser != null ==> ser.timeout == old(ser.timeout) && ser.isOpen == old(ser.isOpen)
    {
      if ser == null {
        return Err(DeviceComError(NotConnected));
      }
      var sent := EncodeAndSend(FirmwareVersionCommand);
      var line := ser.ReadUntil();
      var text := Utf8(line);
      if text.Err? {
        return Err(text.error);
      }
      r := Ok(Strip(text.value));
    }
  }
}
