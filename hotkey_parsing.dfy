/**
  * Turning a hotkey string such as "Ctrl+Alt+T" into modifier bits and a
  * virtual-key code (HotkeyManager.TryParseHotkey).
  *
  * `ParseHotkey` is the reference definition: the string is split on `+`,
  * each piece trimmed and upper-cased into a segment, and the segments are
  * folded left to right by `Step`. `TryParseHotkey` and `ScanParts` are the loop itself,
  * proved equal to it; the lemmas state what the definition promises.
  */
module HotkeyParsing {
  import opened Wrappers
  import opened Text
  import opened KeyCodes

  const MOD_ALT: bv32 := 0x0001
  const MOD_CONTROL: bv32 := 0x0002
  const MOD_SHIFT: bv32 := 0x0004
  const MOD_WIN: bv32 := 0x0008

  /** The modifier bit an upper-cased segment names, or 0 when the segment is a key token. */
  function ModifierBit(segment: string): (bit: bv32)
    ensures bit == 0 || bit == MOD_ALT || bit == MOD_CONTROL || bit == MOD_SHIFT || bit == MOD_WIN
  {
    match segment
    case "CTRL" => MOD_CONTROL
    case "CONTROL" => MOD_CONTROL
    case "ALT" => MOD_ALT
    case "SHIFT" => MOD_SHIFT
    case "WIN" => MOD_WIN
    case "WINDOWS" => MOD_WIN
    case _ => 0
  }

  predicate IsModifier(segment: string) {
    ModifierBit(segment) != 0
  }

  /** What one upper-cased segment contributes: a modifier bit or a key code (0 when unknown). */
  datatype Token = Modifier(bit: bv32) | Key(code: nat)

  predicate ValidToken(t: Token) {
    t.Modifier? ==> t.bit != 0 && t.bit & !0xF == 0
  }

  function Classify(segment: string): (t: Token)
    ensures ValidToken(t)
    ensures t.Modifier? <==> IsModifier(segment)
    ensures t.Key? ==> t.code == VirtualKeyCode(segment)
  {
    if IsModifier(segment) then Modifier(ModifierBit(segment)) else Key(VirtualKeyCode(segment))
  }

  /** The state of the scan: the bits and the key seen so far, or rejected. */
  datatype Scan = Scanning(modifiers: bv32, keyCode: nat) | Rejected

  const Initial: Scan := Scanning(0, 0)

  /** One iteration of the loop: OR in a modifier, or overwrite the key, or reject an unknown key. */
  function Step(state: Scan, t: Token): (next: Scan)
    ensures next.Rejected? <==> state.Rejected? || t == Key(0)
    ensures next.Scanning? && t.Modifier? ==> next.keyCode == state.keyCode
    ensures next.Scanning? && t.Key? ==> next.modifiers == state.modifiers && next.keyCode == t.code
  {
    match state
    case Rejected => Rejected
    case Scanning(modifiers, keyCode) =>
      match t
      case Modifier(bit) => Scanning(modifiers | bit, keyCode)
      case Key(code) => if code == 0 then Rejected else Scanning(modifiers, code)
  }

  /** `Step` over the tokens, left to right. */
  function ScanFrom(state: Scan, tokens: seq<Token>): (last: Scan)
    ensures last.Rejected? <==> state.Rejected? || Key(0) in tokens
    decreases |tokens|
  {
    if tokens == [] then state
    else
      assert tokens == tokens[..|tokens| - 1] + [tokens[|tokens| - 1]];
      Step(ScanFrom(state, tokens[..|tokens| - 1]), tokens[|tokens| - 1])
  }

  /** Each piece trimmed. */
  function TrimAll(pieces: seq<string>): (trimmed: seq<string>)
    ensures |trimmed| == |pieces|
    ensures forall i :: 0 <= i < |pieces| ==> trimmed[i] == Trim(pieces[i])
  {
    seq(|pieces|, i requires 0 <= i < |pieces| => Trim(pieces[i]))
  }

  /** Each piece upper-cased. */
  function UpperAll(pieces: seq<string>): (upper: seq<string>)
    ensures |upper| == |pieces|
    ensures forall i :: 0 <= i < |pieces| ==> upper[i] == Upper(pieces[i])
  {
    seq(|pieces|, i requires 0 <= i < |pieces| => Upper(pieces[i]))
  }

  /** `Split('+', StringSplitOptions.TrimEntries)`: the pieces between the `+` signs, trimmed. */
  function Parts(hotkeyString: string): seq<string> {
    TrimAll(Split(hotkeyString, '+'))
  }

  /** Each part after `ToUpperInvariant`. */
  function Segments(hotkeyString: string): seq<string> {
    UpperAll(Parts(hotkeyString))
  }

  /** Each segment classified. */
  function Classified(segments: seq<string>): (tokens: seq<Token>)
    ensures |tokens| == |segments|
    ensures forall i :: 0 <= i < |tokens| ==> tokens[i] == Classify(segments[i])
  {
    seq(|segments|, i requires 0 <= i < |segments| => Classify(segments[i]))
  }

  function Tokens(hotkeyString: string): seq<Token> {
    Classified(Segments(hotkeyString))
  }

  /** A parsed hotkey: the modifier bits and the virtual-key code. */
  datatype Hotkey = Hotkey(modifiers: bv32, keyCode: nat)

  /** The outcome of a finished scan: a hotkey needs a modifier and a key. */
  function Finish(state: Scan): (h: Option<Hotkey>)
    ensures h.Some? <==> state.Scanning? && state.modifiers != 0 && state.keyCode != 0
    ensures h.Some? ==> h.value == Hotkey(state.modifiers, state.keyCode)
  {
    match state
    case Rejected => None
    case Scanning(modifiers, keyCode) =>
      if modifiers != 0 && keyCode != 0 then Some(Hotkey(modifiers, keyCode)) else None
  }

  /** The parse of a list of upper-cased segments. */
  function ParseSegments(segments: seq<string>): (h: Option<Hotkey>)
    ensures h.Some? ==> Key(0) !in Classified(segments) && h.value.modifiers != 0 && h.value.keyCode != 0
  {
    Finish(ScanFrom(Initial, Classified(segments)))
  }

  /** The reference definition of a successful parse. */
  function ParseHotkey(hotkeyString: string): (h: Option<Hotkey>)
    ensures h.Some? ==> Key(0) !in Tokens(hotkeyString) && h.value.modifiers != 0 && h.value.keyCode != 0
  {
    ParseSegments(Segments(hotkeyString))
  }

  /**
    * `TryParseHotkey`: splits the string on `+` with trimmed entries and runs
    * the loop over the parts; it succeeds exactly when the reference
    * definition yields a hotkey, and then returns that hotkey's fields.
    */
  method TryParseHotkey(hotkeyString: string) returns (ok: bool, modifiers: bv32, keyCode: nat)
    ensures ok <==> ParseHotkey(hotkeyString).Some?
    ensures ok ==> ParseHotkey(hotkeyString) == Some(Hotkey(modifiers, keyCode))
  {
    ok, modifiers, keyCode := ScanParts(Parts(hotkeyString));
  }

  /**
    * The `foreach` loop of `TryParseHotkey` over the trimmed parts: a
    * modifier name ORs in its bit, any other part overwrites the key code,
    * and a part that names no key stops the loop with false. After the
    * loop, the parse succeeds when some modifier and some key were seen.
    */
  method ScanParts(parts: seq<string>) returns (ok: bool, modifiers: bv32, keyCode: nat)
    ensures ok <==> ParseSegments(UpperAll(parts)).Some?
    ensures ok ==> ParseSegments(UpperAll(parts)) == Some(Hotkey(modifiers, keyCode))
  {
    modifiers, keyCode := 0, 0;
    ghost var tokens := Classified(UpperAll(parts));
    for i := 0 to |parts|
      invariant ScanFrom(Initial, tokens[..i]) == Scanning(modifiers, keyCode)
    {
      var upper := Upper(parts[i]);
      ScanFromSnoc(tokens, i);
      TokenAt(parts, i);
      StepClassify(modifiers, keyCode, upper);
      var bit := ModifierBit(upper);
      if bit != 0 {
        modifiers := modifiers | bit;
      } else {
        keyCode := VirtualKeyCode(upper);
        if keyCode == 0 {
          RejectedPrefix(tokens, i + 1);
          return false, modifiers, keyCode;
        }
      }
    }
    assert tokens[..|parts|] == tokens;
    ok := modifiers != 0 && keyCode != 0;
  }

  /** The token of one part. */
  lemma TokenAt(parts: seq<string>, i: nat)
    requires i < |parts|
    ensures |Classified(UpperAll(parts))| == |parts|
    ensures Classified(UpperAll(parts))[i] == Classify(Upper(parts[i]))
  {
  }

  /** One step of the scan on a segment, as the loop body takes it. */
  lemma StepClassify(modifiers: bv32, keyCode: nat, segment: string)
    ensures Step(Scanning(modifiers, keyCode), Classify(segment)) ==
              if ModifierBit(segment) != 0 then Scanning(modifiers | ModifierBit(segment), keyCode)
              else if VirtualKeyCode(segment) == 0 then Rejected
              else Scanning(modifiers, VirtualKeyCode(segment))
  {
  }

  // ---------------------------------------------------------------------------
  // The fold

  lemma {:induction false} ScanFromAppend(state: Scan, a: seq<Token>, b: seq<Token>)
    ensures ScanFrom(state, a + b) == ScanFrom(ScanFrom(state, a), b)
    decreases |b|
  {
    if b == [] {
      assert a + b == a;
    } else {
      assert (a + b)[..|a + b| - 1] == a + b[..|b| - 1];
      ScanFromAppend(state, a, b[..|b| - 1]);
    }
  }

  lemma ScanFromSnoc(tokens: seq<Token>, i: nat)
    requires i < |tokens|
    ensures ScanFrom(Initial, tokens[..i + 1]) == Step(ScanFrom(Initial, tokens[..i]), tokens[i])
  {
    assert tokens[..i + 1][..i] == tokens[..i];
  }

  lemma RejectedPrefix(tokens: seq<Token>, n: nat)
    requires n <= |tokens| && ScanFrom(Initial, tokens[..n]) == Rejected
    ensures ScanFrom(Initial, tokens) == Rejected
  {
    ScanFromAppend(Initial, tokens[..n], tokens[n..]);
    ScanFromRejected(tokens[n..]);
    assert tokens[..n] + tokens[n..] == tokens;
  }

  /** Once an unknown key has been met, nothing after it matters. */
  lemma {:induction false} ScanFromRejected(tokens: seq<Token>)
    ensures ScanFrom(Rejected, tokens) == Rejected
    decreases |tokens|
  {
    if tokens != [] {
      ScanFromRejected(tokens[..|tokens| - 1]);
    }
  }

  predicate HasModifier(tokens: seq<Token>) {
    exists i :: 0 <= i < |tokens| && tokens[i].Modifier?
  }

  predicate HasKey(tokens: seq<Token>) {
    exists i :: 0 <= i < |tokens| && tokens[i].Key?
  }

  lemma HasSnoc(prefix: seq<Token>, last: Token)
    ensures HasModifier(prefix + [last]) <==> HasModifier(prefix) || last.Modifier?
    ensures HasKey(prefix + [last]) <==> HasKey(prefix) || last.Key?
    ensures Key(0) in prefix + [last] <==> Key(0) in prefix || last == Key(0)
  {
    var tokens := prefix + [last];
    if HasModifier(tokens) {
      var i :| 0 <= i < |tokens| && tokens[i].Modifier?;
      if i < |prefix| {
        assert prefix[i].Modifier?;
      }
    }
    if HasModifier(prefix) {
      var i :| 0 <= i < |prefix| && prefix[i].Modifier?;
      assert tokens[i].Modifier?;
    }
    if HasKey(tokens) {
      var i :| 0 <= i < |tokens| && tokens[i].Key?;
      if i < |prefix| {
        assert prefix[i].Key?;
      }
    }
    if HasKey(prefix) {
      var i :| 0 <= i < |prefix| && prefix[i].Key?;
      assert tokens[i].Key?;
    }
    assert tokens[|prefix|] == last;
  }

  /**
    * What the fold computes: it rejects exactly when some key names no key;
    * otherwise the bits are non-zero exactly when a modifier is present, they
    * stay within the four modifier bits, and the key is non-zero exactly when
    * a key is present.
    */
  lemma {:induction false} ScanShape(tokens: seq<Token>)
    requires forall i :: 0 <= i < |tokens| ==> ValidToken(tokens[i])
    ensures ScanFrom(Initial, tokens).Rejected? <==> Key(0) in tokens
    ensures ScanFrom(Initial, tokens).Scanning? ==>
              var s := ScanFrom(Initial, tokens);
              (s.modifiers != 0 <==> HasModifier(tokens)) &&
              (s.keyCode != 0 <==> HasKey(tokens)) &&
              s.modifiers & !0xF == 0
    decreases |tokens|
  {
    if tokens != [] {
      var n := |tokens| - 1;
      var prefix, last := tokens[..n], tokens[n];
      ScanShape(prefix);
      assert tokens == prefix + [last];
      HasSnoc(prefix, last);
      assert ValidToken(last);
    }
  }

  // ---------------------------------------------------------------------------
  // Properties of the parse

  /**
    * A parse succeeds exactly when no key token names an unknown key, at
    * least one modifier is present and at least one key is present; a
    * success carries non-zero bits within {ALT, CONTROL, SHIFT, WIN} and a
    * non-zero key.
    */
  lemma ParseHotkeySucceeds(hotkeyString: string)
    ensures var tokens := Tokens(hotkeyString);
            ParseHotkey(hotkeyString).Some? <==>
              Key(0) !in tokens && HasModifier(tokens) && HasKey(tokens)
    ensures ParseHotkey(hotkeyString).Some? ==>
              var h := ParseHotkey(hotkeyString).value;
              h.modifiers != 0 && h.modifiers & !0xF == 0 && h.keyCode != 0
  {
    ScanShape(Tokens(hotkeyString));
  }

  /** One unknown key token makes the whole string fail, whatever the other segments are. */
  lemma UnknownKeyRejects(hotkeyString: string, i: nat)
    requires i < |Segments(hotkeyString)|
    requires !IsModifier(Segments(hotkeyString)[i]) && VirtualKeyCode(Segments(hotkeyString)[i]) == 0
    ensures ParseHotkey(hotkeyString) == None
  {
    var tokens := Tokens(hotkeyString);
    assert tokens[i] == Key(0);
    ScanShape(tokens);
  }

  lemma {:induction false} ModifiersKeepKey(state: Scan, tokens: seq<Token>)
    requires state.Scanning?
    requires forall i :: 0 <= i < |tokens| ==> tokens[i].Modifier?
    ensures ScanFrom(state, tokens).Scanning?
    ensures ScanFrom(state, tokens).keyCode == state.keyCode
    decreases |tokens|
  {
    if tokens != [] {
      ModifiersKeepKey(state, tokens[..|tokens| - 1]);
    }
  }

  /** When several keys appear, the last one is the key. */
  lemma LastKeyWins(tokens: seq<Token>, j: nat)
    requires j < |tokens| && tokens[j].Key?
    requires forall i :: j < i < |tokens| ==> tokens[i].Modifier?
    requires ScanFrom(Initial, tokens).Scanning?
    ensures ScanFrom(Initial, tokens).keyCode == tokens[j].code
  {
    var a, b := tokens[..j + 1], tokens[j + 1..];
    assert a + b == tokens;
    ScanFromAppend(Initial, a, b);
    assert a[..j] == tokens[..j];
    if ScanFrom(Initial, a).Rejected? {
      ScanFromRejected(b);
    } else {
      ModifiersKeepKey(ScanFrom(Initial, a), b);
    }
  }

  lemma ScanPairThen(p: seq<Token>, x: Token, y: Token, q: seq<Token>)
    ensures ScanFrom(Initial, p + [x, y] + q) == ScanFrom(Step(Step(ScanFrom(Initial, p), x), y), q)
  {
    ScanFromAppend(Initial, p + [x, y], q);
    ScanFromAppend(Initial, p, [x, y]);
    var s := ScanFrom(Initial, p);
    assert [x, y][..1] == [x];
    assert [x][..0] == [];
    assert ScanFrom(s, [x]) == Step(s, x);
  }

  /** Two adjacent tokens of which one is a modifier can be swapped. */
  lemma SwapNextToModifier(p: seq<Token>, x: Token, y: Token, q: seq<Token>)
    requires x.Modifier? || y.Modifier?
    ensures ScanFrom(Initial, p + [x, y] + q) == ScanFrom(Initial, p + [y, x] + q)
  {
    ScanPairThen(p, x, y, q);
    ScanPairThen(p, y, x, q);
    var s := ScanFrom(Initial, p);
    assert Step(Step(s, x), y) == Step(Step(s, y), x);
  }

  /** Repeating a modifier changes nothing. */
  lemma DuplicateModifier(p: seq<Token>, x: Token, q: seq<Token>)
    requires x.Modifier?
    ensures ScanFrom(Initial, p + [x, x] + q) == ScanFrom(Initial, p + [x] + q)
  {
    ScanPairThen(p, x, x, q);
    ScanFromAppend(Initial, p + [x], q);
    ScanFromAppend(Initial, p, [x]);
    var s := ScanFrom(Initial, p);
    assert [x][..0] == [];
    assert ScanFrom(s, [x]) == Step(s, x);
    assert Step(Step(s, x), x) == Step(s, x);
  }

  lemma ClassifiedAppend(x: seq<string>, y: seq<string>)
    ensures Classified(x + y) == Classified(x) + Classified(y)
  {
    var cx, cy, whole := Classified(x), Classified(y), Classified(x + y);
    forall i | 0 <= i < |whole| ensures whole[i] == (cx + cy)[i] {
      if i < |x| {
        assert (x + y)[i] == x[i];
      } else {
        assert (x + y)[i] == y[i - |x|];
      }
    }
  }

  lemma TrimAllAppend(x: seq<string>, y: seq<string>)
    ensures TrimAll(x + y) == TrimAll(x) + TrimAll(y)
  {
    var whole := TrimAll(x + y);
    forall i | 0 <= i < |whole| ensures whole[i] == (TrimAll(x) + TrimAll(y))[i] {
      if i < |x| {
        assert (x + y)[i] == x[i];
      } else {
        assert (x + y)[i] == y[i - |x|];
      }
    }
  }

  lemma UpperAllAppend(x: seq<string>, y: seq<string>)
    ensures UpperAll(x + y) == UpperAll(x) + UpperAll(y)
  {
    var whole := UpperAll(x + y);
    forall i | 0 <= i < |whole| ensures whole[i] == (UpperAll(x) + UpperAll(y))[i] {
      if i < |x| {
        assert (x + y)[i] == x[i];
      } else {
        assert (x + y)[i] == y[i - |x|];
      }
    }
  }

  /** The segments of two strings joined by `+` are the segments of each. */
  lemma SegmentsOfJoin(a: string, b: string)
    ensures Segments(a + "+" + b) == Segments(a) + Segments(b)
  {
    assert a + "+" + b == a + ['+'] + b;
    SplitAtSeparator(a, b, '+');
    TrimAllAppend(Split(a, '+'), Split(b, '+'));
    UpperAllAppend(Parts(a), Parts(b));
  }


  /** A string without `+` is one segment. */
  lemma SegmentsOfPlain(x: string)
    requires '+' !in x
    ensures Segments(x) == [Upper(Trim(x))]
  {
    SplitPlain(x, '+');
  }

  /** `SwapNextToModifier`, for segments rather than tokens. */
  lemma SwapSegments(p: seq<string>, x: string, y: string, q: seq<string>)
    requires IsModifier(x) || IsModifier(y)
    ensures ParseSegments(p + [x, y] + q) == ParseSegments(p + [y, x] + q)
  {
    ClassifiedAppend(p + [x, y], q);
    ClassifiedAppend(p, [x, y]);
    ClassifiedAppend(p + [y, x], q);
    ClassifiedAppend(p, [y, x]);
    var tx, ty := Classify(x), Classify(y);
    assert Classified([x, y]) == [tx, ty];
    assert Classified([y, x]) == [ty, tx];
    SwapNextToModifier(Classified(p), tx, ty, Classified(q));
  }

  /**
    * Swapping any two neighbouring segments, one of which is a modifier, does
    * not change the parse: at the front, in the middle or at the end.
    */
  lemma ModifierOrderIrrelevant(s: string, t: string, i: nat)
    requires i + 1 < |Segments(s)|
    requires IsModifier(Segments(s)[i]) || IsModifier(Segments(s)[i + 1])
    requires Segments(t) == Segments(s)[..i] + [Segments(s)[i + 1], Segments(s)[i]] + Segments(s)[i + 2..]
    ensures ParseHotkey(s) == ParseHotkey(t)
  {
    var g := Segments(s);
    assert g == g[..i] + [g[i], g[i + 1]] + g[i + 2..];
    SwapSegments(g[..i], g[i], g[i + 1], g[i + 2..]);
  }

  /** `DuplicateModifier`, for segments rather than tokens. */
  lemma DuplicateModifierSegment(p: seq<string>, x: string, q: seq<string>)
    requires IsModifier(x)
    ensures ParseSegments(p + [x, x] + q) == ParseSegments(p + [x] + q)
  {
    ClassifiedAppend(p + [x, x], q);
    ClassifiedAppend(p, [x, x]);
    ClassifiedAppend(p + [x], q);
    ClassifiedAppend(p, [x]);
    var tx := Classify(x);
    assert Classified([x, x]) == [tx, tx];
    assert Classified([x]) == [tx];
    DuplicateModifier(Classified(p), tx, Classified(q));
  }

  /** A modifier segment written twice in a row parses as written once, wherever it stands. */
  lemma RepeatedModifierIrrelevant(s: string, t: string, i: nat)
    requires i + 1 < |Segments(s)|
    requires IsModifier(Segments(s)[i]) && Segments(s)[i + 1] == Segments(s)[i]
    requires Segments(t) == Segments(s)[..i + 1] + Segments(s)[i + 2..]
    ensures ParseHotkey(s) == ParseHotkey(t)
  {
    var g := Segments(s);
    assert g == g[..i] + [g[i], g[i]] + g[i + 2..];
    assert Segments(t) == g[..i] + [g[i]] + g[i + 2..];
    DuplicateModifierSegment(g[..i], g[i], g[i + 2..]);
  }

  lemma SegmentsOfUpper(s: string)
    ensures Segments(Upper(s)) == Segments(s)
  {
    SplitUpper(s, '+');
    var pieces := Split(s, '+');
    forall i | 0 <= i < |pieces|
      ensures Segments(Upper(s))[i] == Segments(s)[i]
    {
      TrimUpper(pieces[i]);
      UpperAbsorbs(Trim(pieces[i]));
    }
  }

  /** Case does not matter: strings that agree once upper-cased parse alike. */
  lemma CaseInsensitive(s: string, t: string)
    requires Upper(s) == Upper(t)
    ensures ParseHotkey(s) == ParseHotkey(t)
  {
    SegmentsOfUpper(s);
    SegmentsOfUpper(t);
  }

  lemma TrimAllPaddedLast(p: seq<string>, w: string)
    requires |p| >= 1 && IsBlank(w)
    ensures TrimAll(p[..|p| - 1] + [p[|p| - 1] + w]) == TrimAll(p)
  {
    var n := |p| - 1;
    calc {
      TrimAll(p[..n] + [p[n] + w]);
    == { TrimAllAppend(p[..n], [p[n] + w]); }
      TrimAll(p[..n]) + TrimAll([p[n] + w]);
    == { TrimTrailingBlank(p[n], w); }
      TrimAll(p[..n]) + TrimAll([p[n]]);
    == { TrimAllAppend(p[..n], [p[n]]); }
      TrimAll(p[..n] + [p[n]]);
    == { assert p[..n] + [p[n]] == p; }
      TrimAll(p);
    }
  }


  lemma TrimAllPaddedFirst(w: string, p: seq<string>)
    requires |p| >= 1 && IsBlank(w)
    ensures TrimAll([w + p[0]] + p[1..]) == TrimAll(p)
  {
    calc {
      TrimAll([w + p[0]] + p[1..]);
    == { TrimAllAppend([w + p[0]], p[1..]); }
      TrimAll([w + p[0]]) + TrimAll(p[1..]);
    == { TrimLeadingBlank(w, p[0]); }
      TrimAll([p[0]]) + TrimAll(p[1..]);
    == { TrimAllAppend([p[0]], p[1..]); }
      TrimAll([p[0]] + p[1..]);
    == { assert [p[0]] + p[1..] == p; }
      TrimAll(p);
    }
  }


  /** Whitespace on either side of a `+` does not matter. */
  lemma PaddingIgnored(a: string, left: string, right: string, b: string)
    requires IsBlank(left) && IsBlank(right)
    ensures ParseHotkey(a + left + "+" + right + b) == ParseHotkey(a + "+" + b)
  {
    assert '+' !in left && '+' !in right by {
      assert !IsWhiteSpace('+');
    }
    assert a + left + "+" + right + b == (a + left) + ['+'] + (right + b);
    assert a + "+" + b == a + ['+'] + b;
    SplitAtSeparator(a + left, right + b, '+');
    SplitAtSeparator(a, b, '+');
    SplitAppendPlain(a, left, '+');
    SplitPrependPlain(right, b, '+');
    var pa, pb := Split(a, '+'), Split(b, '+');
    TrimAllAppend(Split(a + left, '+'), Split(right + b, '+'));
    TrimAllAppend(pa, pb);
    TrimAllPaddedLast(pa, left);
    TrimAllPaddedFirst(right, pb);
    assert Parts(a + left + "+" + right + b) == Parts(a + "+" + b);
  }

  // ---------------------------------------------------------------------------
  // Examples



  lemma ScanThree(x: Token, y: Token, z: Token)
    ensures ScanFrom(Initial, [x, y, z]) == Step(Step(Step(Initial, x), y), z)
  {
    assert ScanFrom(Initial, [x]) == Step(Initial, x) by { assert [x][..0] == []; }
    assert ScanFrom(Initial, [x, y]) == Step(ScanFrom(Initial, [x]), y) by { assert [x, y][..1] == [x]; }
    assert [x, y, z][..2] == [x, y];
  }

  lemma ScanTwo(x: Token, y: Token)
    ensures ScanFrom(Initial, [x, y]) == Step(Step(Initial, x), y)
  {
    assert ScanFrom(Initial, [x]) == Step(Initial, x) by { assert [x][..0] == []; }
    assert [x, y][..1] == [x];
  }

  /** A word: no `+` inside and no whitespace at either end. */
  predicate IsWord(x: string) {
    '+' !in x && (x == [] || (!IsWhiteSpace(x[0]) && !IsWhiteSpace(x[|x| - 1])))
  }

  /** A word is one segment, upper-cased. */
  lemma Word(x: string)
    requires IsWord(x)
    ensures Segments(x) == [Upper(x)]
  {
    SegmentsOfPlain(x);
    TrimUnpadded(x);
  }

  lemma TwoWords(x: string, y: string)
    requires IsWord(x) && IsWord(y)
    ensures Segments(x + "+" + y) == [Upper(x), Upper(y)]
  {
    Word(x);
    Word(y);
    SegmentsOfJoin(x, y);
  }

  lemma ThreeWords(x: string, y: string, z: string)
    requires IsWord(x) && IsWord(y) && IsWord(z)
    ensures Segments(x + "+" + y + "+" + z) == [Upper(x), Upper(y), Upper(z)]
  {
    calc {
      Segments(x + "+" + y + "+" + z);
    == { assert x + "+" + y + "+" + z == x + "+" + (y + "+" + z); }
      Segments(x + "+" + (y + "+" + z));
    == { SegmentsOfJoin(x, y + "+" + z); }
      Segments(x) + Segments(y + "+" + z);
    == { Word(x); TwoWords(y, z); }
      [Upper(x)] + [Upper(y), Upper(z)];
    }
  }

  /** A typical binding. */
  lemma ControlAltT()
    ensures ParseHotkey("Ctrl" + "+" + "Alt" + "+" + "T") == Some(Hotkey(MOD_CONTROL | MOD_ALT, 0x54))
  {
    assert Upper("Ctrl") == "CTRL" && Upper("Alt") == "ALT" && Upper("T") == "T";
    calc {
      ParseHotkey("Ctrl" + "+" + "Alt" + "+" + "T");
    == { ThreeWords("Ctrl", "Alt", "T"); }
      ParseSegments(["CTRL", "ALT", "T"]);
    == { assert Classified(["CTRL", "ALT", "T"]) == [Modifier(MOD_CONTROL), Modifier(MOD_ALT), Key(0x54)]; }
      Finish(ScanFrom(Initial, [Modifier(MOD_CONTROL), Modifier(MOD_ALT), Key(0x54)]));
    == { ScanThree(Modifier(MOD_CONTROL), Modifier(MOD_ALT), Key(0x54)); }
      Some(Hotkey(MOD_CONTROL | MOD_ALT, 0x54));
    }
  }

  /** The same binding with the modifiers in the other order. */
  lemma AltControlT()
    ensures ParseHotkey("Alt" + "+" + "Ctrl" + "+" + "T") == ParseHotkey("Ctrl" + "+" + "Alt" + "+" + "T")
  {
    assert Upper("Ctrl") == "CTRL" && Upper("Alt") == "ALT" && Upper("T") == "T";
    calc {
      ParseHotkey("Alt" + "+" + "Ctrl" + "+" + "T");
    == { ThreeWords("Alt", "Ctrl", "T"); assert ["ALT", "CTRL", "T"] == [] + ["ALT", "CTRL"] + ["T"]; }
      ParseSegments([] + ["ALT", "CTRL"] + ["T"]);
    == { SwapSegments([], "ALT", "CTRL", ["T"]); assert [] + ["CTRL", "ALT"] + ["T"] == ["CTRL", "ALT", "T"]; }
      ParseSegments(["CTRL", "ALT", "T"]);
    == { ThreeWords("Ctrl", "Alt", "T"); }
      ParseHotkey("Ctrl" + "+" + "Alt" + "+" + "T");
    }
  }

  /** A modifier and a letter. */
  lemma AltT()
    ensures ParseHotkey("Alt" + "+" + "T") == Some(Hotkey(MOD_ALT, 0x54))
  {
    assert Upper("Alt") == "ALT" && Upper("T") == "T";
    ParseTwo("Alt", "T", Modifier(MOD_ALT), Key(0x54));
  }

  /** The modifier may also follow the key: the last two segments swap as well. */
  lemma KeyThenAlt()
    ensures ParseHotkey("T" + "+" + "Alt") == ParseHotkey("Alt" + "+" + "T")
  {
    assert Upper("Alt") == "ALT" && Upper("T") == "T";
    TwoWords("T", "Alt");
    TwoWords("Alt", "T");
    ModifierOrderIrrelevant("T" + "+" + "Alt", "Alt" + "+" + "T", 0);
  }

  /** Of two keys the later one is bound. */
  lemma ControlQT()
    ensures ParseHotkey("Ctrl" + "+" + "Q" + "+" + "T") == Some(Hotkey(MOD_CONTROL, 0x54))
  {
    assert Upper("Ctrl") == "CTRL" && Upper("Q") == "Q" && Upper("T") == "T";
    calc {
      ParseHotkey("Ctrl" + "+" + "Q" + "+" + "T");
    == { ThreeWords("Ctrl", "Q", "T"); }
      ParseSegments(["CTRL", "Q", "T"]);
    == { assert Classified(["CTRL", "Q", "T"]) == [Modifier(MOD_CONTROL), Key(0x51), Key(0x54)]; }
      Finish(ScanFrom(Initial, [Modifier(MOD_CONTROL), Key(0x51), Key(0x54)]));
    == { ScanThree(Modifier(MOD_CONTROL), Key(0x51), Key(0x54)); }
      Some(Hotkey(MOD_CONTROL, 0x54));
    }
  }

  /** Two words joined by `+` parse as the scan of their two tokens. */
  lemma ParseTwo(x: string, y: string, tx: Token, ty: Token)
    requires IsWord(x) && IsWord(y)
    requires Classify(Upper(x)) == tx && Classify(Upper(y)) == ty
    ensures ParseHotkey(x + "+" + y) == Finish(Step(Step(Initial, tx), ty))
  {
    TwoWords(x, y);
    assert Classified([Upper(x), Upper(y)]) == [tx, ty];
    ScanTwo(tx, ty);
  }

  /** A function key. */
  lemma AltF9()
    ensures ParseHotkey("Alt" + "+" + "F9") == Some(Hotkey(MOD_ALT, 0x78))
  {
    assert Upper("Alt") == "ALT" && Upper("F9") == "F9";
    assert Classify("F9") == Key(0x78) by { FunctionKeySpellings(); }
    ParseTwo("Alt", "F9", Modifier(MOD_ALT), Key(0x78));
  }

  /** A named key. */
  lemma ShiftHome()
    ensures ParseHotkey("Shift" + "+" + "Home") == Some(Hotkey(MOD_SHIFT, 0x24))
  {
    assert Upper("Shift") == "SHIFT" && Upper("Home") == "HOME";
    calc {
      ParseHotkey("Shift" + "+" + "Home");
    == { TwoWords("Shift", "Home"); }
      ParseSegments(["SHIFT", "HOME"]);
    == { TableLookup("HOME");
         assert Classified(["SHIFT", "HOME"]) == [Modifier(MOD_SHIFT), Key(0x24)]; }
      Finish(ScanFrom(Initial, [Modifier(MOD_SHIFT), Key(0x24)]));
    == { ScanTwo(Modifier(MOD_SHIFT), Key(0x24)); }
      Some(Hotkey(MOD_SHIFT, 0x24));
    }
  }

  /** A key without a modifier is refused. */
  lemma KeyWithoutModifier()
    ensures ParseHotkey("F9") == None
  {
    calc {
      ParseHotkey("F9");
    == { Word("F9"); assert Upper("F9") == "F9"; }
      ParseSegments(["F9"]);
    == { FunctionKeySpellings(); assert Classified(["F9"]) == [Key(0x78)]; }
      Finish(ScanFrom(Initial, [Key(0x78)]));
    == { assert [Key(0x78)][..0] == []; }
      None;
    }
  }

  /** A modifier followed by an empty key is refused. */
  lemma EmptyKey()
    ensures ParseHotkey("Ctrl" + "+" + "") == None
  {
    assert Upper("Ctrl") == "CTRL" && Upper("") == "";
    calc {
      ParseHotkey("Ctrl" + "+" + "");
    == { TwoWords("Ctrl", ""); }
      ParseSegments(["CTRL", ""]);
    == { LowerCaseAndEmptyRejected();
         assert Classified(["CTRL", ""]) == [Modifier(MOD_CONTROL), Key(0)]; }
      Finish(ScanFrom(Initial, [Modifier(MOD_CONTROL), Key(0)]));
    == { ScanTwo(Modifier(MOD_CONTROL), Key(0)); }
      None;
    }
  }
}
