/** Prayer versions and the inline markup of prayer text: `<big>`, `<small>`, `<b>` and other tags
    nest on a stack, and every run of text between tags is styled by the stack as it stands. */
module SiddurSettings {
  import opened Wrappers
  import opened Strings

  // ---------------------------------------------------------------------------
  // Prayer versions

  datatype PrayerVersion = Mizrah | Sfarad | Ashkenaz

  /** The stored name of a version; each of the three names belongs to exactly one version. */
  function RawValue(v: PrayerVersion): (raw: string)
    ensures raw == "SiddurEdotHaMizrach" <==> v == Mizrah
    ensures raw == "SfaradPrayers" <==> v == Sfarad
    ensures raw == "AshkenazPrayers" <==> v == Ashkenaz
  {
    match v
    case Mizrah => "SiddurEdotHaMizrach"
    case Sfarad => "SfaradPrayers"
    case Ashkenaz => "AshkenazPrayers"
  }

  /** The localisation key shown for a version; each of the three keys belongs to exactly one
      version, so versions are told apart by their keys, and no key is a raw value. */
  function DisplayName(v: PrayerVersion): (name: string)
    ensures name == "MIZRAH_LOC" <==> v == Mizrah
    ensures name == "SPAIN_LOC" <==> v == Sfarad
    ensures name == "ASHKENAZ_LOC" <==> v == Ashkenaz
    ensures name != RawValue(v)
  {
    match v
    case Mizrah => "MIZRAH_LOC"
    case Sfarad => "SPAIN_LOC"
    case Ashkenaz => "ASHKENAZ_LOC"
  }

  /** The prayer file of a version is named after its raw value. */
  function FileName(v: PrayerVersion): (name: string)
    ensures name == RawValue(v)
  {
    match v
    case Mizrah => RawValue(Mizrah)
    case Sfarad => RawValue(Sfarad)
    case Ashkenaz => RawValue(Ashkenaz)
  }

  /** `PrayerVersion(rawValue:)`. */
  function FromRawValue(s: string): (r: Option<PrayerVersion>)
    ensures r.Some? ==> RawValue(r.value) == s
  {
    if s == "SiddurEdotHaMizrach" then Some(Mizrah)
    else if s == "SfaradPrayers" then Some(Sfarad)
    else if s == "AshkenazPrayers" then Some(Ashkenaz)
    else None
  }

  /** The raw values are distinct, so `init(rawValue:)` inverts `rawValue` (and so `fileName`). */
  lemma RawValueRoundTrip(v: PrayerVersion, w: PrayerVersion)
    ensures FromRawValue(RawValue(v)) == Some(v)
    ensures FromRawValue(FileName(v)) == Some(v)
    ensures RawValue(v) == RawValue(w) ==> v == w
  {
  }

  // ---------------------------------------------------------------------------
  // Font sizes

  /** A font size relative to the base size: `base * 1.5^bigs * 0.75^smalls`. */
  datatype Scale = Scale(bigs: nat, smalls: nat)

  function Pow(x: real, n: nat): real {
    if n == 0 then 1.0 else x * Pow(x, n - 1)
  }

  function Size(sc: Scale, base: real): real {
    base * Pow(1.5, sc.bigs) * Pow(0.75, sc.smalls)
  }

  /** A `(tag, size)` entry of the tag stack. */
  datatype TagEntry = TagEntry(tag: string, scale: Scale)

  /** The size of the innermost open tag, or the base size when no tag is open. */
  function TopScale(stack: seq<TagEntry>): Scale {
    if stack == [] then Scale(0, 0) else stack[|stack| - 1].scale
  }

  /** The effect of one tag `<content>` on the stack. A closing tag `</x>` pops only when the
      innermost open tag is `x`; an opening tag pushes its name with its size: 1.5 times the
      current size for `big`, 0.75 times for `small`, the current size otherwise. */
  function ApplyTag(stack: seq<TagEntry>, content: string): (r: seq<TagEntry>)
    ensures |r| <= |stack| + 1
    ensures r == stack || (stack != [] && r == stack[..|stack| - 1]) || (|r| == |stack| + 1 && r[..|stack|] == stack)
  {
    if StartsWith(content, "/") then
      if stack != [] && stack[|stack| - 1].tag == content[1..] then stack[..|stack| - 1] else stack
    else
      var top := TopScale(stack);
      var scale :=
        if content == "big" then top.(bigs := top.bigs + 1)
        else if content == "small" then top.(smalls := top.smalls + 1)
        else top;
      stack + [TagEntry(content, scale)]
  }

  /** A closing tag pops the top entry exactly when it names it; an opening tag pushes an entry
      named by it and leaves the entries below alone. */
  lemma ApplyTagEffect(stack: seq<TagEntry>, content: string)
    ensures StartsWith(content, "/") && stack != [] && stack[|stack| - 1].tag == content[1..] ==>
              ApplyTag(stack, content) == stack[..|stack| - 1]
    ensures StartsWith(content, "/") && !(stack != [] && stack[|stack| - 1].tag == content[1..]) ==>
              ApplyTag(stack, content) == stack
    ensures !StartsWith(content, "/") ==>
              var r := ApplyTag(stack, content);
              |r| == |stack| + 1 && r[..|stack|] == stack && r[|stack|].tag == content
  {
    if !StartsWith(content, "/") {
      var r := ApplyTag(stack, content);
      assert r[..|stack|] == stack;
    }
  }

  /** The size an opening tag records, relative to the size in force before it. */
  lemma OpeningTagSize(stack: seq<TagEntry>, content: string, base: real)
    requires !StartsWith(content, "/")
    ensures content == "big" ==> Size(TopScale(ApplyTag(stack, content)), base) == Size(TopScale(stack), base) * 1.5
    ensures content == "small" ==> Size(TopScale(ApplyTag(stack, content)), base) == Size(TopScale(stack), base) * 0.75
    ensures content != "big" && content != "small" ==> TopScale(ApplyTag(stack, content)) == TopScale(stack)
  {
    var top := TopScale(stack);
    var r := ApplyTag(stack, content);
    var b, m := Pow(1.5, top.bigs), Pow(0.75, top.smalls);
    if content == "big" {
      assert TopScale(r) == Scale(top.bigs + 1, top.smalls);
      assert Pow(1.5, top.bigs + 1) == 1.5 * b;
      ScaleBy(base, b, m, 1.5);
    } else if content == "small" {
      assert TopScale(r) == Scale(top.bigs, top.smalls + 1);
      assert Pow(0.75, top.smalls + 1) == 0.75 * m;
      ScaleBy(base, m, b, 0.75);
    }
  }

  lemma ScaleBy(base: real, p: real, q: real, x: real)
    ensures base * (x * p) * q == base * p * q * x
    ensures base * q * (x * p) == base * q * p * x
  {
  }

  /** A tag closed right after it was opened leaves the stack as it was. */
  lemma OpenThenClose(stack: seq<TagEntry>, name: string)
    requires !StartsWith(name, "/")
    ensures ApplyTag(ApplyTag(stack, name), "/" + name) == stack
  {
    var s1 := ApplyTag(stack, name);
    ApplyTagEffect(stack, name);
    ApplyTagEffect(s1, "/" + name);
    assert StartsWith("/" + name, "/");
    assert ("/" + name)[1..] == name;
    assert s1[..|s1| - 1] == stack;
  }

  // ---------------------------------------------------------------------------
  // The scanner, as a specification

  /** A run of text and the tag stack in force when it was flushed. */
  datatype Segment = Segment(text: string, stack: seq<TagEntry>)

  /** `html[j...].firstIndex(of: ">")`. */
  function FindClose(html: string, j: nat): (r: Option<nat>)
    ensures r.Some? ==> j <= r.value < |html| && html[r.value] == '>'
    decreases |html| - j
  {
    if j >= |html| then None
    else if html[j] == '>' then Some(j)
    else FindClose(html, j + 1)
  }

  /** The `>` found is the first one, and none is found only when there is none. */
  lemma {:induction false} FindCloseFirst(html: string, j: nat)
    ensures FindClose(html, j).Some? ==> forall k :: j <= k < FindClose(html, j).value ==> html[k] != '>'
    ensures FindClose(html, j).None? ==> forall k :: j <= k < |html| ==> html[k] != '>'
    decreases |html| - j
  {
    if j < |html| && html[j] != '>' {
      FindCloseFirst(html, j + 1);
    }
  }

  /** The pending text as a segment, unless it is empty. */
  function Flush(pending: string, stack: seq<TagEntry>): seq<Segment> {
    if pending == [] then [] else [Segment(pending, stack)]
  }

  /** The scan from index `i`: `None` when it reaches a `<` with no later `>`, where the
      scanner makes no progress and never finishes. Segments already emitted are kept. */
  function Scan(html: string, i: nat, stack: seq<TagEntry>, pending: string, acc: seq<Segment>): (r: Option<seq<Segment>>)
    ensures r.Some? ==> acc <= r.value
    decreases |html| - i
  {
    if i >= |html| then Some(acc + Flush(pending, stack))
    else if html[i] == '<' then
      match FindClose(html, i)
      case None => None
      case Some(c) => Scan(html, c + 1, ApplyTag(stack, html[i + 1..c]), [], acc + Flush(pending, stack))
    else Scan(html, i + 1, stack, pending + [html[i]], acc)
  }

  /** `parseHTML`: it finishes exactly when every `<` has a later `>`, and then its text is the
      HTML with the tags removed. */
  function Parse(html: string): (r: Option<seq<Segment>>)
    ensures r.Some? <==> AllClosedFrom(html, 0)
    ensures r.Some? ==> Texts(r.value) == Visible(html, 0, false)
  {
    ScanFinishes(html, 0, [], [], []);
    if Scan(html, 0, [], [], []).Some? then ScanText(html, 0, [], [], []); Scan(html, 0, [], [], [])
    else Scan(html, 0, [], [], [])
  }

  /** The characters outside tags, by a left-to-right automaton: `<` enters a tag, `>` leaves it. */
  function Visible(html: string, i: nat, inTag: bool): string
    decreases |html| - i
  {
    if i >= |html| then []
    else if inTag then Visible(html, i + 1, html[i] != '>')
    else if html[i] == '<' then Visible(html, i + 1, true)
    else [html[i]] + Visible(html, i + 1, false)
  }

  function Texts(segs: seq<Segment>): string {
    if segs == [] then [] else segs[0].text + Texts(segs[1..])
  }

  lemma {:induction false} TextsAppend(a: seq<Segment>, b: seq<Segment>)
    ensures Texts(a + b) == Texts(a) + Texts(b)
    decreases |a|
  {
    if a == [] {
      assert a + b == b;
    } else {
      assert (a + b)[1..] == a[1..] + b;
      TextsAppend(a[1..], b);
    }
  }

  /** Inside a tag whose `>` is at `c`, the automaton skips to just after `c`. */
  lemma {:induction false} SkipTag(html: string, j: nat, c: nat)
    requires j <= c < |html| && html[c] == '>'
    requires forall k :: j <= k < c ==> html[k] != '>'
    ensures Visible(html, j, true) == Visible(html, c + 1, false)
    decreases c - j
  {
    if j < c {
      SkipTag(html, j + 1, c);
    }
  }

  lemma TextsFlush(pending: string, stack: seq<TagEntry>)
    ensures Texts(Flush(pending, stack)) == pending
  {
    if pending != [] {
      assert Flush(pending, stack)[1..] == [];
    }
  }

  /** Every character outside tags is in the segments exactly once and in order; no tag content is. */
  lemma {:induction false} ScanText(html: string, i: nat, stack: seq<TagEntry>, pending: string, acc: seq<Segment>)
    requires Scan(html, i, stack, pending, acc).Some?
    ensures Texts(Scan(html, i, stack, pending, acc).value) == Texts(acc) + pending + Visible(html, i, false)
    decreases |html| - i, 1
  {
    if i >= |html| {
      TextsAppend(acc, Flush(pending, stack));
      TextsFlush(pending, stack);
    } else if html[i] == '<' {
      ScanTextTag(html, i, stack, pending, acc);
    } else {
      ScanTextChar(html, i, stack, pending, acc);
    }
  }

  /** The step of `ScanText` at a `<`: the tag's characters are skipped. */
  lemma {:induction false} ScanTextTag(html: string, i: nat, stack: seq<TagEntry>, pending: string, acc: seq<Segment>)
    requires i < |html| && html[i] == '<'
    requires Scan(html, i, stack, pending, acc).Some?
    ensures Texts(Scan(html, i, stack, pending, acc).value) == Texts(acc) + pending + Visible(html, i, false)
    decreases |html| - i, 0
  {
    var c := FindClose(html, i).value;
    var acc' := acc + Flush(pending, stack);
    var next := ApplyTag(stack, html[i + 1..c]);
    ScanTagStep(html, i, stack, pending, acc, c, next, acc');
    ScanText(html, c + 1, next, [], acc');
    TextsFlushed(acc, pending, stack);
    TagInvisible(html, i, c);
    var t, v := Texts(acc), Visible(html, c + 1, false);
    assert t + pending + [] + v == t + pending + v;
  }

  lemma TextsFlushed(acc: seq<Segment>, pending: string, stack: seq<TagEntry>)
    ensures Texts(acc + Flush(pending, stack)) == Texts(acc) + pending
  {
    TextsAppend(acc, Flush(pending, stack));
    TextsFlush(pending, stack);
  }

  /** A tag, from its `<` to its `>`, contributes no visible text. */
  lemma TagInvisible(html: string, i: nat, c: nat)
    requires i < |html| && html[i] == '<' && FindClose(html, i) == Some(c)
    ensures Visible(html, i, false) == Visible(html, c + 1, false)
  {
    FindCloseFirst(html, i);
    assert Visible(html, i, false) == Visible(html, i + 1, true);
    SkipTag(html, i + 1, c);
  }

  /** The step of `ScanText` at any other character: it joins the pending text. */
  lemma {:induction false} ScanTextChar(html: string, i: nat, stack: seq<TagEntry>, pending: string, acc: seq<Segment>)
    requires i < |html| && html[i] != '<'
    requires Scan(html, i, stack, pending, acc).Some?
    ensures Texts(Scan(html, i, stack, pending, acc).value) == Texts(acc) + pending + Visible(html, i, false)
    decreases |html| - i, 0
  {
    ScanCharStep(html, i, stack, pending, acc);
    ScanText(html, i + 1, stack, pending + [html[i]], acc);
    assert Visible(html, i, false) == [html[i]] + Visible(html, i + 1, false);
    assert Texts(acc) + (pending + [html[i]]) + Visible(html, i + 1, false)
        == Texts(acc) + pending + ([html[i]] + Visible(html, i + 1, false));
  }

  /** Some `>` follows position `j`. */
  predicate CloseAfter(html: string, j: nat) {
    exists k :: j < k < |html| && html[k] == '>'
  }

  /** Every `<` from position `i` on has a later `>`. */
  predicate AllClosedFrom(html: string, i: nat) {
    forall j :: i <= j < |html| && html[j] == '<' ==> CloseAfter(html, j)
  }

  /** The scan finishes exactly when every `<` has a later `>`. */
  lemma {:induction false} ScanFinishes(html: string, i: nat, stack: seq<TagEntry>, pending: string, acc: seq<Segment>)
    ensures Scan(html, i, stack, pending, acc).Some? <==> AllClosedFrom(html, i)
    decreases |html| - i
  {
    if i < |html| {
      if html[i] == '<' {
        FindCloseFirst(html, i);
        match FindClose(html, i) {
          case None =>
            assert !CloseAfter(html, i);
          case Some(c) =>
            ScanFinishes(html, c + 1, ApplyTag(stack, html[i + 1..c]), [], acc + Flush(pending, stack));
            forall j | i <= j <= c && html[j] == '<' ensures CloseAfter(html, j) {
              assert html[c] == '>';
            }
        }
      } else {
        ScanFinishes(html, i + 1, stack, pending + [html[i]], acc);
      }
    }
  }

  // ---------------------------------------------------------------------------
  // Styling

  const NoBreakSpace: char := '\U{00A0}'

  /** A text modifier: bold, or the custom font at a recorded size. */
  datatype Modifier = Bold | Font(scale: Scale)

  /** A styled run: its text and the modifiers applied to it, first applied first. */
  datatype Run = Run(text: string, modifiers: seq<Modifier>)

  function ModifierOf(e: TagEntry): Modifier {
    if e.tag == "b" then Bold else Font(e.scale)
  }

  /** The modifiers of a stack, taken from the top (innermost) entry down to the bottom. */
  function Modifiers(stack: seq<TagEntry>): (mods: seq<Modifier>)
    ensures |mods| == |stack|
    ensures forall k :: 0 <= k < |stack| ==> mods[k] == ModifierOf(stack[|stack| - 1 - k])
  {
    if stack == [] then []
    else [ModifierOf(stack[|stack| - 1])] + Modifiers(stack[..|stack| - 1])
  }

  function StyleRun(s: Segment): Run {
    Run(ReplaceChar(s.text, NoBreakSpace, ' '), Modifiers(s.stack))
  }

  function Render(segs: seq<Segment>): (runs: seq<Run>)
    ensures |runs| == |segs|
    ensures forall k :: 0 <= k < |segs| ==> runs[k] == StyleRun(segs[k])
  {
    if segs == [] then [] else [StyleRun(segs[0])] + Render(segs[1..])
  }

  lemma {:induction false} RenderAppend(a: seq<Segment>, b: seq<Segment>)
    ensures Render(a + b) == Render(a) + Render(b)
  {
    assert |Render(a + b)| == |Render(a) + Render(b)|;
    forall k | 0 <= k < |a + b| ensures Render(a + b)[k] == (Render(a) + Render(b))[k] {
      if k < |a| {
        assert (a + b)[k] == a[k];
      } else {
        assert (a + b)[k] == b[k - |a|];
      }
    }
  }

  function RunsText(runs: seq<Run>): string {
    if runs == [] then [] else runs[0].text + RunsText(runs[1..])
  }

  lemma {:induction false} ReplaceCharAppend(a: string, b: string, c: char, d: char)
    ensures ReplaceChar(a + b, c, d) == ReplaceChar(a, c, d) + ReplaceChar(b, c, d)
  {
    var l, r := ReplaceChar(a + b, c, d), ReplaceChar(a, c, d) + ReplaceChar(b, c, d);
    forall k | 0 <= k < |l| ensures l[k] == r[k] {
      if k < |a| {
        assert (a + b)[k] == a[k];
      } else {
        assert (a + b)[k] == b[k - |a|];
      }
    }
  }

  /** The rendered text is the segments' text with every no-break space made a plain space. */
  lemma {:induction false} RunsTextOfRender(segs: seq<Segment>)
    ensures RunsText(Render(segs)) == ReplaceChar(Texts(segs), NoBreakSpace, ' ')
    decreases |segs|
  {
    if segs != [] {
      RunsTextOfRender(segs[1..]);
      ReplaceCharAppend(segs[0].text, Texts(segs[1..]), NoBreakSpace, ' ');
      assert Render(segs)[1..] == Render(segs[1..]);
    }
  }

  // ---------------------------------------------------------------------------
  // The imperative parser

  /** `applyStyles`: no-break spaces become plain spaces, then for each stack entry from the top
      down, tag `b` adds bold and any other tag applies its recorded size. */
  method ApplyStyles(text: string, stack: seq<TagEntry>) returns (run: Run)
    ensures run.text == ReplaceChar(text, NoBreakSpace, ' ')
    ensures |run.modifiers| == |stack|
    ensures forall k :: 0 <= k < |stack| ==>
              run.modifiers[k] == (if stack[|stack| - 1 - k].tag == "b" then Bold else Font(stack[|stack| - 1 - k].scale))
    ensures run == StyleRun(Segment(text, stack))
  {
    var styled := ReplaceChar(text, NoBreakSpace, ' ');
    var mods: seq<Modifier> := [];
    for k := 0 to |stack|
      invariant |mods| == k
      invariant forall j :: 0 <= j < k ==> mods[j] == ModifierOf(stack[|stack| - 1 - j])
    {
      var entry := stack[|stack| - 1 - k];
      if entry.tag == "b" {
        mods := mods + [Bold];
      } else {
        mods := mods + [Font(entry.scale)];
      }
    }
    run := Run(styled, mods);
  }

  /** A flushed run of text extends the rendered runs by its styled run. */
  method FlushRun(result: seq<Run>, current: string, stack: seq<TagEntry>, ghost acc: seq<Segment>)
    returns (result': seq<Run>, ghost acc': seq<Segment>)
    requires result == Render(acc)
    ensures acc' == acc + Flush(current, stack)
    ensures result' == Render(acc')
  {
    if current == [] {
      result', acc' := result, acc;
      assert acc + Flush(current, stack) == acc;
    } else {
      var run := ApplyStyles(current, stack);
      RenderAppend(acc, [Segment(current, stack)]);
      result' := result + [run];
      acc' := acc + [Segment(current, stack)];
    }
  }

  /** The text of the rendered parse is the visible text, no-break spaces made plain. */
  lemma ParseRunsText(html: string)
    requires Parse(html).Some?
    ensures RunsText(Render(Parse(html).value)) == ReplaceChar(Visible(html, 0, false), NoBreakSpace, ' ')
  {
    RunsTextOfRender(Parse(html).value);
  }

  /** At a `<` whose tag closes, the scan resumes after the tag with the pending text flushed. */
  lemma ScanTagStep(html: string, i: nat, stack: seq<TagEntry>, pending: string, acc: seq<Segment>, c: nat,
                    stack': seq<TagEntry>, acc': seq<Segment>)
    requires i < |html| && html[i] == '<' && FindClose(html, i) == Some(c)
    requires stack' == ApplyTag(stack, html[i + 1..c]) && acc' == acc + Flush(pending, stack)
    ensures Scan(html, i, stack, pending, acc) == Scan(html, c + 1, stack', [], acc')
  {
  }

  /** At a `<` with no later `>`, the scan is stuck. */
  lemma ScanStuck(html: string, i: nat, stack: seq<TagEntry>, pending: string, acc: seq<Segment>)
    requires i < |html| && html[i] == '<' && FindClose(html, i).None?
    ensures Scan(html, i, stack, pending, acc).None?
  {
  }

  /** At any other character, the scan moves on with the character added to the pending text. */
  lemma ScanCharStep(html: string, i: nat, stack: seq<TagEntry>, pending: string, acc: seq<Segment>)
    requires i < |html| && html[i] != '<'
    ensures Scan(html, i, stack, pending, acc) == Scan(html, i + 1, stack, pending + [html[i]], acc)
  {
  }

  /** The tag part of the `<` branch of `parseHTML`: when a `>` follows, apply the tag to the
      stack and resume after it; with no `>`, report the scan stuck. The pending run has been
      flushed into `acc'` already. */
  method ReadTag(html: string, i: nat, stack: seq<TagEntry>, ghost current: string, ghost acc: seq<Segment>,
                 ghost acc': seq<Segment>)
    returns (closed: bool, i': nat, stack': seq<TagEntry>)
    requires i < |html| && html[i] == '<' && acc' == acc + Flush(current, stack)
    ensures !closed ==> Scan(html, i, stack, current, acc).None?
    ensures closed ==> i < i' <= |html| && Scan(html, i, stack, current, acc) == Scan(html, i', stack', [], acc')
  {
    match FindClose(html, i) {
      case None =>
        ScanStuck(html, i, stack, current, acc);
        closed, i', stack' := false, i, stack;
      case Some(closing) =>
        var content := html[i + 1..closing];
        closed, i', stack' := true, closing + 1, ApplyTag(stack, content);
        ScanTagStep(html, i, stack, current, acc, closing, stack', acc');
    }
  }

  /** `parseHTML`: the runs of text between tags, each styled by the stack in force before the tag
      that ends it. `None` stands for the scanner getting stuck at a `<` with no later `>`. */
  method ParseHTML(html: string) returns (r: Option<seq<Run>>)
    ensures r.Some? <==> AllClosedFrom(html, 0)
    ensures r.Some? ==> Parse(html).Some? && r.value == Render(Parse(html).value)
    ensures r.Some? ==> RunsText(r.value) == ReplaceChar(Visible(html, 0, false), NoBreakSpace, ' ')
  {
    ScanFinishes(html, 0, [], [], []);
    var stack: seq<TagEntry> := [];
    var result: seq<Run> := [];
    var current: string := [];
    ghost var acc: seq<Segment> := [];
    ghost var parsed := Parse(html);
    var i := 0;
    while i < |html|
      invariant 0 <= i <= |html|
      invariant Scan(html, i, stack, current, acc) == parsed
      invariant result == Render(acc)
      decreases |html| - i
    {
      if html[i] == '<' {
        ghost var current0, acc0 := current, acc;
        result, acc := FlushRun(result, current, stack, acc);
        var closed: bool;
        closed, i, stack := ReadTag(html, i, stack, current0, acc0, acc);
        current := [];
        if !closed {
          return None;
        }
      } else {
        ScanCharStep(html, i, stack, current, acc);
        current := current + [html[i]];
        i := i + 1;
      }
    }
    result, acc := FlushRun(result, current, stack, acc);
    ParseRunsText(html);
    r := Some(result);
  }
}
