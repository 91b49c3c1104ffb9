/** The documentation check's code-block extractor: a Markdown text is cut
    into lines, a line starting (after white space) with three backticks
    opens or closes a fenced block, blocks tagged as Python are kept, and
    their code is joined for execution. `textwrap.dedent` is a parameter
    (its rules are not modelled) and executing the code is left out. */
module Markdown {
  import opened Errors
  import opened Bytes

  const Fence: string := "```"
  const PythonTag: string := "py"

  // ---------------------------------------------------------------------
  // Lines

  /** `str.split("\n")`: never empty, and no part holds a line break. */
  function Split(s: string): (r: seq<string>)
    ensures |r| >= 1 && forall i :: 0 <= i < |r| ==> '\n' !in r[i]
    decreases |s|
  {
    if s == [] then [""]
    else
      var rest := Split(s[1..]);
      if s[0] == '\n' then [""] + rest else [[s[0]] + rest[0]] + rest[1..]
  }

  /** `"\n".join(parts)`. */
  function Join(parts: seq<string>): (r: string)
    decreases |parts|
  {
    if parts == [] then ""
    else if |parts| == 1 then parts[0]
    else parts[0] + "\n" + Join(parts[1..])
  }

  predicate NoBreaks(parts: seq<string>)
  {
    forall i :: 0 <= i < |parts| ==> '\n' !in parts[i]
  }

  /** Joining the parts of a split gives back the text. */
  lemma {:induction false} JoinSplit(s: string)
    ensures Join(Split(s)) == s
    decreases |s|
  {
    if s != [] {
      JoinSplit(s[1..]);
      var rest := Split(s[1..]);
      if s[0] == '\n' {
        assert [""] + rest != [] && ([""] + rest)[1..] == rest;
      } else if |rest| == 1 {
        assert [s[0]] + rest[0] == [s[0]] + s[1..];
      } else {
        var parts := [[s[0]] + rest[0]] + rest[1..];
        assert parts[1..] == rest[1..];
        assert Join(rest) == rest[0] + "\n" + Join(rest[1..]);
      }
    }
  }

  /** Splitting joined parts without line breaks gives back the parts. */
  lemma {:induction false} SplitJoin(parts: seq<string>)
    requires |parts| >= 1 && NoBreaks(parts)
    ensures Split(Join(parts)) == parts
    decreases |parts|, |parts[0]|
  {
    var p := parts[0];
    if p == [] {
      if |parts| > 1 {
        SplitJoin(parts[1..]);
        assert Join(parts) == "\n" + Join(parts[1..]);
        assert ("\n" + Join(parts[1..]))[1..] == Join(parts[1..]);
      }
    } else {
      var shorter := [p[1..]] + parts[1..];
      assert NoBreaks(shorter) by {
        assert forall i :: 1 <= i < |shorter| ==> shorter[i] == parts[i];
        assert '\n' !in p[1..] by {
          assert forall k :: 0 <= k < |p[1..]| ==> p[1..][k] == p[k + 1];
        }
      }
      SplitJoin(shorter);
      assert shorter[1..] == parts[1..];
      var s := Join(parts);
      if |parts| == 1 {
        assert s == p && s[1..] == Join(shorter);
      } else {
        assert s == p + "\n" + Join(parts[1..]);
        assert s[1..] == p[1..] + "\n" + Join(parts[1..]);
        assert s[1..] == Join(shorter);
      }
      assert s[0] == p[0] && p[0] != '\n';
      assert [p[0]] + p[1..] == p;
    }
  }

  /** One more part at the end of a join. */
  lemma {:induction false} JoinSnoc(parts: seq<string>, last: string)
    requires parts != []
    ensures Join(parts + [last]) == Join(parts) + "\n" + last
    decreases |parts|
  {
    if |parts| > 1 {
      JoinSnoc(parts[1..], last);
      assert (parts + [last])[1..] == parts[1..] + [last];
    } else {
      assert (parts + [last])[1..] == [last];
    }
  }

  /** What `block += line + "\n"` builds from `lines`. */
  function BlockText(lines: seq<string>): (r: string)
    decreases |lines|
  {
    if lines == [] then "" else BlockText(lines[..|lines| - 1]) + lines[|lines| - 1] + "\n"
  }

  /** Collected lines are the parts of a join that ends in an empty part. */
  lemma {:induction false} BlockTextIsJoin(lines: seq<string>)
    ensures BlockText(lines) == Join(lines + [""])
    decreases |lines|
  {
    if lines != [] {
      var init := lines[..|lines| - 1];
      var last := lines[|lines| - 1];
      if init == [] {
        assert lines + [""] == [last, ""];
        assert Join([last, ""]) == last + "\n" + Join([""]);
      } else {
        calc {
          BlockText(lines);
          BlockText(init) + last + "\n";
          { BlockTextIsJoin(init); }
          Join(init + [""]) + last + "\n";
          { JoinSnoc(init, ""); }
          Join(init) + "\n" + "" + last + "\n";
          Join(init) + "\n" + last + "\n";
          { JoinSnoc(init, last); assert init + [last] == lines; }
          Join(lines) + "\n";
          Join(lines) + "\n" + "";
          { JoinSnoc(lines, ""); }
          Join(lines + [""]);
        }
      }
    }
  }

  // ---------------------------------------------------------------------
  // One block

  /** `s.replace(" ", "")`. */
  function RemoveSpaces(s: string): (r: string)
    ensures |r| <= |s| && ' ' !in r
    decreases |s|
  {
    if s == [] then []
    else (if s[0] == ' ' then [] else [s[0]]) + RemoveSpaces(s[1..])
  }

  /** Python's `s[from:to]` for `0 <= from <= to`: clipped to the string. */
  function PySlice(s: string, from: nat, to: nat): (r: string)
    requires from <= to
    ensures |r| <= to - from
    ensures to <= |s| ==> r == s[from..to]
  {
    var hi := if to <= |s| then to else |s|;
    var lo := if from <= hi then from else hi;
    s[lo..hi]
  }

  /** The opening fence names Python: characters 3 and 4 once spaces are
      removed are "py". */
  predicate IsPythonFence(line: string)
  {
    PySlice(RemoveSpaces(line), 3, 5) == PythonTag
  }

  /** `_check_codeblock_is_python`: the block's lines after its first,
      dedented, when the first names Python; "" otherwise. */
  function PythonBody(block: string, dedent: string -> string): (r: string)
    ensures !IsPythonFence(Split(block)[0]) ==> r == ""
  {
    var lines := Split(block);
    if IsPythonFence(lines[0]) then dedent(Join(lines[1..])) else ""
  }

  /** A collected block: its fence line heads it, and the body kept is the
      text of the lines after it, exactly as collected. */
  lemma CollectedBlock(open: string, body: seq<string>, dedent: string -> string)
    requires NoBreaks([open] + body)
    ensures PythonBody(BlockText([open] + body), dedent)
      == if IsPythonFence(open) then dedent(BlockText(body)) else ""
  {
    var parts := Split(BlockText([open] + body));
    SplitBlock([open] + body);
    assert parts[0] == open;
    assert Join(parts[1..]) == BlockText(body) by {
      assert parts[1..] == body + [""];
      BlockTextIsJoin(body);
    }
  }

  /** Splitting collected lines gives them back, and an empty last part. */
  lemma SplitBlock(lines: seq<string>)
    requires NoBreaks(lines)
    ensures Split(BlockText(lines)) == lines + [""]
  {
    var all := lines + [""];
    BlockTextIsJoin(lines);
    assert NoBreaks(all) by {
      assert forall i :: 0 <= i < |lines| ==> all[i] == lines[i];
    }
    SplitJoin(all);
  }

  /** Removing spaces from two pieces is removing them from each. */
  lemma {:induction false} RemoveSpacesAppend(a: string, b: string)
    ensures RemoveSpaces(a + b) == RemoveSpaces(a) + RemoveSpaces(b)
    decreases |a|
  {
    if a == [] {
      assert a + b == b;
    } else {
      var head := if a[0] == ' ' then [] else [a[0]];
      calc {
        RemoveSpaces(a + b);
        { assert (a + b)[0] == a[0] && (a + b)[1..] == a[1..] + b; }
        head + RemoveSpaces(a[1..] + b);
        { RemoveSpacesAppend(a[1..], b); }
        head + (RemoveSpaces(a[1..]) + RemoveSpaces(b));
        (head + RemoveSpaces(a[1..])) + RemoveSpaces(b);
        RemoveSpaces(a) + RemoveSpaces(b);
      }
    }
  }

  lemma FenceKept()
    ensures RemoveSpaces(Fence) == Fence
  {
    NoSpacesKept(Fence);
  }

  /** Text without spaces is left as it is. */
  lemma {:induction false} NoSpacesKept(s: string)
    requires ' ' !in s
    ensures RemoveSpaces(s) == s
    decreases |s|
  {
    if s != [] {
      assert ' ' !in s[1..] by {
        assert forall k :: 0 <= k < |s[1..]| ==> s[1..][k] == s[k + 1];
      }
      NoSpacesKept(s[1..]);
      assert [s[0]] + s[1..] == s;
    }
  }

  /** A fence line names Python exactly when what follows the three
      backticks starts with "py" once its spaces are removed. */
  lemma FenceTag(t: string)
    ensures IsPythonFence(Fence + t) <==> StartsWith(RemoveSpaces(t), PythonTag)
  {
    RemoveSpacesAppend(Fence, t);
    FenceKept();
    var r := RemoveSpaces(t);
    assert RemoveSpaces(Fence + t) == Fence + r;
    AfterFence(r);
  }

  /** Characters 3 and 4 of a fence line are the first two after the
      backticks, and they are "py" exactly when that text starts so. */
  lemma AfterFence(r: string)
    ensures PySlice(Fence + r, 3, 5) == PythonTag <==> StartsWith(r, PythonTag)
  {
    var tight := Fence + r;
    if |r| >= 2 {
      assert PySlice(tight, 3, 5) == tight[3..5];
      assert tight[3..5] == r[..2];
    } else {
      assert PySlice(tight, 3, 5) == tight[3..|tight|];
      assert |tight[3..|tight|]| < 2;
    }
  }

  // ---------------------------------------------------------------------
  // The line scan

  /** `_extract_codeblocks`' loop variables. */
  datatype Scan = Scan(inside: bool, block: string, blocks: seq<string>)

  const Start: Scan := Scan(false, "", [])

  /** A line whose stripped text starts with the fence. */
  predicate IsFence(line: string)
  {
    StartsWith(Strip(line), Fence)
  }

  /** One line of the loop: a fence opens or closes a block (a closed
      block is collected; its Python check is applied in `Codeblocks`), and
      every line inside a block, the opening fence included, is added to it. */
  function Step(st: Scan, line: string): (r: Scan)
    ensures |r.blocks| == |st.blocks| + (if IsFence(line) && st.inside then 1 else 0)
    ensures r.blocks[..|st.blocks|] == st.blocks
  {
    var toggled :=
      if IsFence(line) && !st.inside then st.(inside := true)
      else if IsFence(line) && st.inside then Scan(false, "", st.blocks + [st.block])
      else st;
    if toggled.inside then toggled.(block := toggled.block + line + "\n") else toggled
  }

  /** The loop over `lines` from state `st`. */
  function ScanFrom(st: Scan, lines: seq<string>): Scan
    decreases |lines|
  {
    if lines == [] then st else Step(ScanFrom(st, lines[..|lines| - 1]), lines[|lines| - 1])
  }

  /** Scanning two runs of lines is scanning the first, then the second. */
  lemma {:induction false} ScanAppend(st: Scan, a: seq<string>, b: seq<string>)
    ensures ScanFrom(st, a + b) == ScanFrom(ScanFrom(st, a), b)
    decreases |b|
  {
    if b == [] {
      assert a + b == a;
    } else {
      ScanAppend(st, a, b[..|b| - 1]);
      assert (a + b)[..|a + b| - 1] == a + b[..|b| - 1];
    }
  }

  /** The number of fence lines. */
  function Fences(lines: seq<string>): nat
    decreases |lines|
  {
    if lines == [] then 0 else Fences(lines[..|lines| - 1]) + (if IsFence(lines[|lines| - 1]) then 1 else 0)
  }

  /** From the start, the scan is inside a block exactly after an odd
      number of fences, holds nothing pending outside one, and has
      collected one block per closed pair of fences. */
  lemma {:induction false} ScanCountsFences(lines: seq<string>)
    ensures var st := ScanFrom(Start, lines);
      (st.inside <==> Fences(lines) % 2 == 1)
      && (!st.inside ==> st.block == "")
      && |st.blocks| == Fences(lines) / 2
    decreases |lines|
  {
    if lines != [] {
      var init := lines[..|lines| - 1];
      var line := lines[|lines| - 1];
      ScanCountsFences(init);
      var st := ScanFrom(Start, init);
      var f := Fences(init);
      assert ScanFrom(Start, lines) == Step(st, line);
      if IsFence(line) {
        assert Fences(lines) == f + 1;
        if st.inside {
          assert f % 2 == 1 && (f + 1) % 2 == 0 && (f + 1) / 2 == f / 2 + 1;
        } else {
          assert f % 2 == 0 && (f + 1) % 2 == 1 && (f + 1) / 2 == f / 2;
        }
      } else {
        assert Fences(lines) == f;
      }
    }
  }

  /** One line scanned. */
  lemma ScanOne(st: Scan, line: string)
    ensures ScanFrom(st, [line]) == Step(st, line)
  {
    assert [line][..0] == [];
  }

  /** Lines without fences inside a block are collected into it. */
  lemma {:induction false} BodyCollected(block: string, blocks: seq<string>, body: seq<string>)
    requires forall i :: 0 <= i < |body| ==> !IsFence(body[i])
    ensures ScanFrom(Scan(true, block, blocks), body) == Scan(true, block + BlockText(body), blocks)
    decreases |body|
  {
    if body != [] {
      var init := body[..|body| - 1];
      var last := body[|body| - 1];
      var st := Scan(true, block, blocks);
      calc {
        ScanFrom(st, body);
        Step(ScanFrom(st, init), last);
        { BodyCollected(block, blocks, init); }
        Step(Scan(true, block + BlockText(init), blocks), last);
        { assert !IsFence(last); }
        Scan(true, block + BlockText(init) + last + "\n", blocks);
        { assert BlockText(body) == BlockText(init) + last + "\n"; }
        Scan(true, block + BlockText(body), blocks);
      }
    }
  }

  /** Lines without fences outside a block change nothing. */
  lemma {:induction false} TextSkipped(blocks: seq<string>, text: seq<string>)
    requires forall i :: 0 <= i < |text| ==> !IsFence(text[i])
    ensures ScanFrom(Scan(false, "", blocks), text) == Scan(false, "", blocks)
    decreases |text|
  {
    if text != [] {
      TextSkipped(blocks, text[..|text| - 1]);
    }
  }

  /** A fenced block after a scan that is outside any block: the block is
      collected as its opening fence line and its body, and the scan is
      outside again. */
  lemma FencedBlock(blocks: seq<string>, open: string, body: seq<string>, close: string)
    requires IsFence(open) && IsFence(close)
    requires forall i :: 0 <= i < |body| ==> !IsFence(body[i])
    ensures ScanFrom(Scan(false, "", blocks), [open] + body + [close])
      == Scan(false, "", blocks + [BlockText([open] + body)])
  {
    var st0 := Scan(false, "", blocks);
    ScanAppend(st0, [open] + body, [close]);
    ScanAppend(st0, [open], body);
    OpenFence(st0, open);
    BodyCollected(open + "\n", blocks, body);
    var full := Scan(true, open + "\n" + BlockText(body), blocks);
    CloseFence(full, close);
    BlockTextPrefix(open, body);
  }

  /** An opening fence starts a block holding that line. */
  lemma OpenFence(st: Scan, open: string)
    requires !st.inside && st.block == "" && IsFence(open)
    ensures ScanFrom(st, [open]) == Scan(true, open + "\n", st.blocks)
  {
    ScanOne(st, open);
    assert "" + open + "\n" == open + "\n";
  }

  /** A closing fence collects the block. */
  lemma CloseFence(st: Scan, close: string)
    requires st.inside && IsFence(close)
    ensures ScanFrom(st, [close]) == Scan(false, "", st.blocks + [st.block])
  {
    ScanOne(st, close);
  }

  lemma {:induction false} BlockTextPrefix(first: string, rest: seq<string>)
    ensures BlockText([first] + rest) == first + "\n" + BlockText(rest)
    decreases |rest|
  {
    if rest != [] {
      BlockTextPrefix(first, rest[..|rest| - 1]);
      assert ([first] + rest)[..|[first] + rest| - 1] == [first] + rest[..|rest| - 1];
    }
  }

  /** A block still open when the text ends is dropped: lines after the
      last fence, itself opening a block, add nothing to what is collected. */
  lemma UnclosedDropped(before: seq<string>, open: string, tail: seq<string>)
    requires Fences(before) % 2 == 0 && IsFence(open)
    requires forall i :: 0 <= i < |tail| ==> !IsFence(tail[i])
    ensures ScanFrom(Start, before + [open] + tail).blocks == ScanFrom(Start, before).blocks
    ensures ScanFrom(Start, before + [open] + tail).inside
  {
    ScanCountsFences(before);
    var st := ScanFrom(Start, before);
    ScanAppend(Start, before + [open], tail);
    ScanAppend(Start, before, [open]);
    OpenFence(st, open);
    BodyCollected(open + "\n", st.blocks, tail);
  }

  /** `[b for b in blocks if b != ""]`: every non-empty block as often as
      in the input and no empty one, so nothing exactly when every block is
      empty; `NonEmptyAppend` states that the order is kept. */
  function NonEmpty(blocks: seq<string>): (r: seq<string>)
    ensures |r| <= |blocks|
    ensures forall i :: 0 <= i < |r| ==> r[i] != "" && r[i] in blocks
    ensures r == [] <==> forall i :: 0 <= i < |blocks| ==> blocks[i] == ""
    ensures (forall i :: 0 <= i < |blocks| ==> blocks[i] != "") ==> r == blocks
    decreases |blocks|
  {
    if blocks == [] then []
    else (if blocks[0] == "" then [] else [blocks[0]]) + NonEmpty(blocks[1..])
  }

  /** Every non-empty block is kept as often as it occurs, and no empty one. */
  lemma {:induction false} NonEmptyCounts(blocks: seq<string>)
    ensures multiset(NonEmpty(blocks)) == multiset(blocks)["" := 0]
    decreases |blocks|
  {
    if blocks != [] {
      NonEmptyCounts(blocks[1..]);
      assert blocks == [blocks[0]] + blocks[1..];
    }
  }

  /** Filtering keeps the order: the kept blocks of two runs are those of
      the first, then those of the second. */
  lemma {:induction false} NonEmptyAppend(a: seq<string>, b: seq<string>)
    ensures NonEmpty(a + b) == NonEmpty(a) + NonEmpty(b)
    decreases |a|
  {
    if a == [] {
      assert a + b == b;
    } else {
      assert (a + b)[1..] == a[1..] + b;
      NonEmptyAppend(a[1..], b);
    }
  }

  /** `_check_codeblock_is_python` applied to each collected block. */
  function Bodies(blocks: seq<string>, dedent: string -> string): (r: seq<string>)
    ensures |r| == |blocks| && forall i :: 0 <= i < |blocks| ==> r[i] == PythonBody(blocks[i], dedent)
  {
    seq(|blocks|, i requires 0 <= i < |blocks| => PythonBody(blocks[i], dedent))
  }

  /** Some closed block of `lines` is tagged Python and has a non-empty
      dedented body. */
  predicate HasPythonCode(lines: seq<string>, dedent: string -> string)
  {
    var closed := ScanFrom(Start, lines).blocks;
    exists i :: 0 <= i < |closed| && PythonBody(closed[i], dedent) != ""
  }

  /** The code blocks of a document cut into `lines`: the Python bodies of
      its closed blocks without the empty ones, none at all exactly when it
      has no Python code. */
  function LinesCodeblocks(lines: seq<string>, dedent: string -> string): (r: seq<string>)
    ensures forall i :: 0 <= i < |r| ==> r[i] != ""
    ensures r == [] <==> !HasPythonCode(lines, dedent)
  {
    var closed := ScanFrom(Start, lines).blocks;
    var bodies := Bodies(closed, dedent);
    assert (forall i :: 0 <= i < |bodies| ==> bodies[i] == "")
      <==> (forall i :: 0 <= i < |closed| ==> PythonBody(closed[i], dedent) == "");
    NonEmpty(bodies)
  }

  /** `_extract_codeblocks`: the code blocks of the dedented text cut into
      lines. */
  function Codeblocks(raw: string, dedent: string -> string): (r: seq<string>)
    ensures forall i :: 0 <= i < |r| ==> r[i] != ""
    ensures r == [] <==> !HasPythonCode(Split(dedent(raw)), dedent)
  {
    LinesCodeblocks(Split(dedent(raw)), dedent)
  }

  /** Blocks recorded before a run of lines stay in front of those the run
      records. */
  lemma {:induction false} ScanKeepsEarlier(inside: bool, block: string, earlier: seq<string>, lines: seq<string>)
    ensures var st := ScanFrom(Scan(inside, block, []), lines);
      ScanFrom(Scan(inside, block, earlier), lines) == st.(blocks := earlier + st.blocks)
    decreases |lines|
  {
    if lines != [] {
      ScanKeepsEarlier(inside, block, earlier, lines[..|lines| - 1]);
      var st := ScanFrom(Scan(inside, block, []), lines[..|lines| - 1]);
      assert earlier + st.blocks + [st.block] == earlier + (st.blocks + [st.block]);
    }
  }

  /** Bodies of two runs of blocks. */
  lemma BodiesAppend(a: seq<string>, b: seq<string>, dedent: string -> string)
    ensures Bodies(a + b, dedent) == Bodies(a, dedent) + Bodies(b, dedent)
  {
    var ab := a + b;
    assert forall i :: |a| <= i < |ab| ==> ab[i] == b[i - |a|];
  }

  /** Document order: cutting the lines where no block is open, the code
      blocks are those of the first part followed by those of the second. */
  lemma CodeblocksInOrder(before: seq<string>, after: seq<string>, dedent: string -> string)
    requires Fences(before) % 2 == 0
    ensures LinesCodeblocks(before + after, dedent)
      == LinesCodeblocks(before, dedent) + LinesCodeblocks(after, dedent)
  {
    ScanCountsFences(before);
    var first := ScanFrom(Start, before).blocks;
    ScanAppend(Start, before, after);
    ScanKeepsEarlier(false, "", first, after);
    var second := ScanFrom(Start, after).blocks;
    assert ScanFrom(Start, before + after).blocks == first + second;
    BodiesAppend(first, second, dedent);
    NonEmptyAppend(Bodies(first, dedent), Bodies(second, dedent));
  }

  /** One fenced block after text: its dedented body is the one code block
      when the fence is tagged Python and the body is not empty, and there
      is none otherwise. */
  lemma FencedCodeblock(text: seq<string>, open: string, body: seq<string>, close: string, dedent: string -> string)
    requires forall i :: 0 <= i < |text| ==> !IsFence(text[i])
    requires forall i :: 0 <= i < |body| ==> !IsFence(body[i])
    requires IsFence(open) && IsFence(close) && NoBreaks([open] + body)
    ensures LinesCodeblocks(text + [open] + body + [close], dedent)
      == if IsPythonFence(open) && dedent(BlockText(body)) != "" then [dedent(BlockText(body))] else []
  {
    FencedAfterText(text, open, body, close);
    OneBlock(text + [open] + body + [close], BlockText([open] + body), dedent);
    CollectedBlock(open, body, dedent);
  }

  /** Lines that record one block give its body, unless it is empty. */
  lemma OneBlock(lines: seq<string>, block: string, dedent: string -> string)
    requires ScanFrom(Start, lines).blocks == [block]
    ensures var code := PythonBody(block, dedent);
      LinesCodeblocks(lines, dedent) == if code == "" then [] else [code]
  {
    var code := PythonBody(block, dedent);
    assert Bodies([block], dedent) == [code];
    assert [code][1..] == [];
  }

  /** Text, then one fenced block: that block is the only one recorded. */
  lemma FencedAfterText(text: seq<string>, open: string, body: seq<string>, close: string)
    requires forall i :: 0 <= i < |text| ==> !IsFence(text[i])
    requires forall i :: 0 <= i < |body| ==> !IsFence(body[i])
    requires IsFence(open) && IsFence(close)
    ensures ScanFrom(Start, text + [open] + body + [close]).blocks == [BlockText([open] + body)]
  {
    var fenced := [open] + body + [close];
    var all := text + fenced;
    assert all == text + [open] + body + [close];
    TextSkipped([], text);
    ScanAppend(Start, text, fenced);
    FencedBlock([], open, body, close);
    assert ScanFrom(Start, all) == Scan(false, "", [BlockText([open] + body)]);
  }

  /** Lines with at most one fence hold no code block. */
  lemma NoClosedBlock(lines: seq<string>, dedent: string -> string)
    requires Fences(lines) <= 1
    ensures LinesCodeblocks(lines, dedent) == []
  {
    ScanCountsFences(lines);
  }

  /** At most one block per closed pair of fences. */
  lemma BlocksPerFencePair(raw: string, dedent: string -> string)
    ensures |Codeblocks(raw, dedent)| <= Fences(Split(dedent(raw))) / 2
  {
    ScanCountsFences(Split(dedent(raw)));
  }

  /** One more line of the loop. */
  lemma ScanSnoc(lines: seq<string>, i: nat)
    requires i < |lines|
    ensures ScanFrom(Start, lines[..i + 1]) == Step(ScanFrom(Start, lines[..i]), lines[i])
  {
    assert lines[..i + 1][..i] == lines[..i];
  }

  /** `_extract_codeblocks` as the loop it is. */
  method ExtractCodeblocks(raw: string, dedent: string -> string) returns (codeblocks: seq<string>)
    ensures codeblocks == Codeblocks(raw, dedent)
  {
    var lines := Split(dedent(raw));
    var block := "";
    var collected: seq<string> := [];
    ghost var closed: seq<string> := [];
    var inside := false;
    for i := 0 to |lines|
      invariant Scan(inside, block, closed) == ScanFrom(Start, lines[..i])
      invariant collected == Bodies(closed, dedent)
    {
      ScanSnoc(lines, i);
      var line := lines[i];
      var beginning := Strip(line);
      if StartsWith(beginning, Fence) && !inside {
        inside := true;
      } else if StartsWith(beginning, Fence) && inside {
        collected := collected + [PythonBody(block, dedent)];
        closed := closed + [block];
        block := "";
        inside := false;
      }
      if inside {
        block := block + line + "\n";
      }
    }
    assert lines[..|lines|] == lines;
    assert collected == Bodies(ScanFrom(Start, lines).blocks, dedent);
    codeblocks := NonEmpty(collected);
  }

  // ---------------------------------------------------------------------
  // The code to run

  /** `all_code = f"{all_code}\n{codeblock}"` over `blocks`. */
  function AllCode(blocks: seq<string>): (r: string)
    ensures r == "" <==> blocks == []
    decreases |blocks|
  {
    if blocks == [] then "" else AllCode(blocks[..|blocks| - 1]) + "\n" + blocks[|blocks| - 1]
  }

  /** The code is the blocks, each preceded by a line break. */
  lemma {:induction false} AllCodeIsJoin(blocks: seq<string>)
    ensures AllCode(blocks) == Join([""] + blocks)
    decreases |blocks|
  {
    if blocks != [] {
      var init := blocks[..|blocks| - 1];
      AllCodeIsJoin(init);
      JoinSnoc([""] + init, blocks[|blocks| - 1]);
      assert [""] + init + [blocks[|blocks| - 1]] == [""] + blocks;
    }
  }

  /** One more block of the loop. */
  lemma AllCodeSnoc(blocks: seq<string>, i: nat)
    requires i < |blocks|
    ensures AllCode(blocks[..i + 1]) == AllCode(blocks[..i]) + "\n" + blocks[i]
  {
    var next := blocks[..i + 1];
    assert next[..|next| - 1] == blocks[..i] && next[|next| - 1] == blocks[i];
  }

  /** `_extract_python_code`. */
  method ExtractPythonCode(raw: string, dedent: string -> string) returns (code: string)
    ensures code == AllCode(Codeblocks(raw, dedent))
    ensures code == "" <==> Codeblocks(raw, dedent) == []
  {
    var blocks := ExtractCodeblocks(raw, dedent);
    code := "";
    for i := 0 to |blocks|
      invariant code == AllCode(blocks[..i])
    {
      AllCodeSnoc(blocks, i);
      code := code + "\n" + blocks[i];
    }
    assert blocks[..|blocks|] == blocks;
  }

  /** `check_md_file`: the code it would execute, or nothing when the text
      has no Python block. */
  method CheckMdFile(raw: string, dedent: string -> string) returns (executed: Option<string>)
    ensures executed.None? <==> !HasPythonCode(Split(dedent(raw)), dedent)
    ensures executed.Some? ==> executed.value == AllCode(Codeblocks(raw, dedent))
  {
    var code := ExtractPythonCode(raw, dedent);
    if code == "" {
      return None;
    }
    executed := Some(code);
  }
}
