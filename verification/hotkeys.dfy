/**
 * Keyboard shortcuts (editor/src/utils/hotkeys.ts): combo strings are
 * normalised to a canonical spelling (lower case, de-duplicated modifiers in
 * the order ctrl, meta, alt, shift, then one key), key events are turned
 * into the same spelling, and a registry maps each normalised combo to the
 * handlers registered for it, in registration order.
 */
module Hotkeys {
  import opened Wrappers
  import opened Seqs
  import opened Strings

  /** Key names the normaliser renames; every other key is only lower-cased. */
  const SPECIAL_KEYS: map<string, string> := map[
    "ArrowLeft" := "left", "ArrowRight" := "right", "ArrowUp" := "up", "ArrowDown" := "down",
    " " := "space", "Escape" := "escape", "Enter" := "enter", "+" := "+"]

  /**
   * `normalizeKey`: a special key is renamed, anything else is lower-cased
   * (both branches of the source's length test lower-case). The result is
   * lower case and empty only for the empty key.
   */
  function NormalizeKey(key: string): (k: string)
    ensures IsLower(k)
    ensures |k| == 0 <==> |key| == 0
  {
    if key in SPECIAL_KEYS then SPECIAL_KEYS[key]
    else
      LowerFacts(key);
      Lower(key)
  }

  /** The four modifiers, declared in the order a normalised combo lists them. */
  datatype Modifier = Ctrl | Meta | Alt | Shift

  function ModifierName(m: Modifier): string {
    match m
    case Ctrl => "ctrl"
    case Meta => "meta"
    case Alt => "alt"
    case Shift => "shift"
  }

  /** A modifier's place in the order ctrl, meta, alt, shift (`order.indexOf`). */
  function Rank(m: Modifier): nat {
    match m
    case Ctrl => 0
    case Meta => 1
    case Alt => 2
    case Shift => 3
  }

  /** The modifier a token names, if it names one (`['ctrl', 'alt', 'shift', 'meta'].includes(p)`). */
  function AsModifier(p: string): (r: Option<Modifier>)
    ensures r.Some? ==> ModifierName(r.value) == p
    ensures r.None? ==> forall m :: ModifierName(m) != p
  {
    if p == "ctrl" then Some(Ctrl)
    else if p == "alt" then Some(Alt)
    else if p == "shift" then Some(Shift)
    else if p == "meta" then Some(Meta)
    else None
  }

  predicate IsModifier(p: string) {
    AsModifier(p).Some?
  }

  /** Each modifier's name is a clean token that reads back as that modifier. */
  lemma ModifierNameFacts(m: Modifier)
    ensures AsModifier(ModifierName(m)) == Some(m)
    ensures CleanToken(ModifierName(m))
  {
  }

  /** Distinct modifiers have distinct names. */
  lemma ModifierNameInjective(a: Modifier, b: Modifier)
    requires ModifierName(a) == ModifierName(b)
    ensures a == b
  {
    ModifierNameFacts(a);
    ModifierNameFacts(b);
  }

  predicate SortedByRank(ms: seq<Modifier>) {
    forall i, j :: 0 <= i < j < |ms| ==> Rank(ms[i]) <= Rank(ms[j])
  }

  /** Inserts `m` after every element of rank at most its own (the step of a stable insertion sort). */
  function InsertByRank(m: Modifier, ms: seq<Modifier>): (r: seq<Modifier>)
    requires SortedByRank(ms)
    ensures SortedByRank(r)
    ensures |r| == |ms| + 1
    ensures forall y :: y in r <==> y == m || y in ms
  {
    if |ms| == 0 then [m]
    else if Rank(m) < Rank(ms[0]) then
      assert forall y :: y in ms ==> Rank(m) < Rank(y) by {
        TailSorted(ms);
      }
      ConsSorted(m, ms);
      [m] + ms
    else
      TailSorted(ms);
      var tail := InsertByRank(m, ms[1..]);
      ConsSorted(ms[0], tail);
      assert forall y :: y in ms <==> y == ms[0] || y in ms[1..] by {
        assert ms == [ms[0]] + ms[1..];
      }
      [ms[0]] + tail
  }

  /** Inserting a new modifier into a duplicate-free list keeps it duplicate-free. */
  lemma {:induction false} InsertKeepsNoDups(m: Modifier, ms: seq<Modifier>)
    requires SortedByRank(ms) && NoDups(ms) && m !in ms
    ensures NoDups(InsertByRank(m, ms))
  {
    if |ms| == 0 {
    } else if Rank(m) < Rank(ms[0]) {
      ConsNoDups(m, ms);
    } else {
      TailSorted(ms);
      TailNoDups(ms);
      assert ms[0] in ms;
      assert m !in ms[1..];
      InsertKeepsNoDups(m, ms[1..]);
      TailMembers(ms);
      ConsNoDups(ms[0], InsertByRank(m, ms[1..]));
    }
  }

  /** The tail of a duplicate-free list is duplicate-free. */
  lemma TailNoDups(ms: seq<Modifier>)
    requires |ms| > 0 && NoDups(ms)
    ensures NoDups(ms[1..])
  {
    forall i, j | 0 <= i < j < |ms| - 1
      ensures ms[1..][i] != ms[1..][j]
    {
      assert ms[1..][i] == ms[i + 1] && ms[1..][j] == ms[j + 1];
    }
  }

  /** The tail of a sorted list is sorted and ranks no lower than its head. */
  lemma TailSorted(ms: seq<Modifier>)
    requires |ms| > 0 && SortedByRank(ms)
    ensures SortedByRank(ms[1..])
    ensures forall y :: y in ms[1..] ==> y in ms && Rank(ms[0]) <= Rank(y)
  {
    forall y | y in ms[1..]
      ensures y in ms && Rank(ms[0]) <= Rank(y)
    {
      var k :| 0 <= k < |ms| - 1 && ms[1..][k] == y;
      assert ms[k + 1] == y;
    }
  }

  /** A head ranking no higher than anything in a sorted tail keeps the list sorted. */
  lemma ConsSorted(x: Modifier, tail: seq<Modifier>)
    requires SortedByRank(tail)
    requires forall y :: y in tail ==> Rank(x) <= Rank(y)
    ensures SortedByRank([x] + tail)
  {
    var r := [x] + tail;
    forall i, j | 0 <= i < j < |r|
      ensures Rank(r[i]) <= Rank(r[j])
    {
      assert r[j] == tail[j - 1] && tail[j - 1] in tail;
      if i > 0 {
        assert r[i] == tail[i - 1];
      }
    }
  }

  /** `finalModifiers.sort(...)` by rank; stable, as the language's sort is. */
  function SortByRank(ms: seq<Modifier>): (r: seq<Modifier>)
    ensures SortedByRank(r)
    ensures |r| == |ms|
    ensures forall y :: y in r <==> y in ms
    ensures NoDups(ms) ==> NoDups(r)
  {
    if |ms| == 0 then []
    else
      var init := ms[..|ms| - 1];
      var last := ms[|ms| - 1];
      assert ms == init + [last];
      var sorted := SortByRank(init);
      if NoDups(ms) then
        assert forall i :: 0 <= i < |init| ==> init[i] == ms[i];
        assert NoDups(init) && last !in init;
        InsertKeepsNoDups(last, sorted);
        InsertByRank(last, sorted)
      else InsertByRank(last, sorted)
  }

  /** The canonical modifier list: each modifier of `ms` once, in rank order. */
  function Canonical(ms: seq<Modifier>): (r: seq<Modifier>)
    ensures SortedByRank(r) && NoDups(r)
    ensures forall m :: m in r <==> m in ms
  {
    PickBefore(Ctrl, ms, PickBefore(Meta, ms, PickBefore(Alt, ms, PickBefore(Shift, ms, []))))
  }

  /** `m` in front of `rest` when `ms` holds it, for a `rest` of strictly higher rank. */
  function PickBefore(m: Modifier, ms: seq<Modifier>, rest: seq<Modifier>): (r: seq<Modifier>)
    requires SortedByRank(rest) && NoDups(rest)
    requires forall y :: y in rest ==> Rank(m) < Rank(y)
    ensures SortedByRank(r) && NoDups(r)
    ensures forall x :: x in r <==> (x == m && m in ms) || x in rest
    ensures forall y :: y in r ==> Rank(m) <= Rank(y)
  {
    if m in ms then
      ConsSorted(m, rest);
      ConsNoDups(m, rest);
      [m] + rest
    else rest
  }

  /** A new head keeps a list free of duplicates. */
  lemma ConsNoDups(x: Modifier, tail: seq<Modifier>)
    requires NoDups(tail) && x !in tail
    ensures NoDups([x] + tail)
  {
    var r := [x] + tail;
    forall i, j | 0 <= i < j < |r|
      ensures r[i] != r[j]
    {
      assert r[j] == tail[j - 1];
      if i > 0 {
        assert r[i] == tail[i - 1];
      } else {
        assert tail[j - 1] in tail;
      }
    }
  }

  /** Two duplicate-free, rank-sorted lists of modifiers with the same members are equal. */
  lemma {:induction false} SortedModifiersUnique(xs: seq<Modifier>, ys: seq<Modifier>)
    requires SortedByRank(xs) && SortedByRank(ys) && NoDups(xs) && NoDups(ys)
    requires forall m :: m in xs <==> m in ys
    ensures xs == ys
  {
    if |xs| > 0 {
      assert xs[0] in xs;
    }
    if |ys| > 0 {
      assert ys[0] in ys;
    }
    if |xs| > 0 && |ys| > 0 {
      assert xs[0] == ys[0] by {
        var i :| 0 <= i < |ys| && ys[i] == xs[0];
        var j :| 0 <= j < |xs| && xs[j] == ys[0];
        assert Rank(ys[0]) <= Rank(xs[0]) <= Rank(ys[0]);
      }
      TailSorted(xs);
      TailSorted(ys);
      TailNoDups(xs);
      TailNoDups(ys);
      TailMembers(xs);
      TailMembers(ys);
      SortedModifiersUnique(xs[1..], ys[1..]);
      assert xs == [xs[0]] + xs[1..] && ys == [ys[0]] + ys[1..];
    }
  }

  /**
   * De-duplicating the modifiers and sorting them by rank yields the
   * canonical list: how often and in what order the modifiers were written
   * does not matter, only which ones were.
   */
  lemma FinalModifiersAreCanonical(ms: seq<Modifier>)
    ensures SortByRank(Dedupe(ms)) == Canonical(ms)
  {
    SortedModifiersUnique(SortByRank(Dedupe(ms)), Canonical(ms));
  }

  /** `part.trim().toLowerCase()`. */
  function Clean(p: string): string {
    Lower(Trim(p))
  }

  function CleanAll(parts: seq<string>): (r: seq<string>)
    ensures |r| == |parts|
    ensures forall i :: 0 <= i < |parts| ==> r[i] == Clean(parts[i])
  {
    seq(|parts|, i requires 0 <= i < |parts| => Clean(parts[i]))
  }

  predicate NonEmpty(p: string) {
    p != ""
  }

  /** The combo's tokens: split at '+', each trimmed and lower-cased, empty ones dropped. */
  function Tokens(combo: string): seq<string> {
    Filter(CleanAll(Split(combo, '+')), NonEmpty)
  }

  /** The modifiers among the tokens, in order (`parts.filter(p => [...].includes(p))`). */
  function ModifiersOf(ts: seq<string>): (ms: seq<Modifier>)
    ensures forall m :: m in ms <==> ModifierName(m) in ts
  {
    if |ts| == 0 then []
    else
      var rest := ModifiersOf(ts[1..]);
      assert ts == [ts[0]] + ts[1..];
      match AsModifier(ts[0])
      case Some(m) =>
        forall m' | ModifierName(m') == ts[0] ensures m' == m {
          ModifierNameInjective(m', m);
        }
        [m] + rest
      case None => rest
  }

  predicate IsKey(p: string) {
    !IsModifier(p)
  }

  /** The last token that is not a modifier, or "" when there is none (`keys.pop() ?? ''`). */
  function LastKey(ts: seq<string>): string {
    var keys := Filter(ts, IsKey);
    if |keys| == 0 then "" else keys[|keys| - 1]
  }

  /** `keys.pop() ?? ''`: no key when every token is a modifier, and otherwise the last token that is not one. */
  lemma LastKeyIsTheLastKey(ts: seq<string>)
    ensures (forall i :: 0 <= i < |ts| ==> IsModifier(ts[i])) ==> LastKey(ts) == ""
    ensures (exists i :: 0 <= i < |ts| && IsKey(ts[i])) ==>
      exists i :: 0 <= i < |ts| && ts[i] == LastKey(ts) && IsKey(ts[i]) && forall j :: i < j < |ts| ==> IsModifier(ts[j])
  {
    var keys := Filter(ts, IsKey);
    if |keys| > 0 {
      assert keys[|keys| - 1] in keys;
      FilterEndsWithLastMatch(ts, IsKey);
    } else {
      forall i | 0 <= i < |ts|
        ensures IsModifier(ts[i])
      {
        assert ts[i] !in keys;
      }
    }
  }

  function KeyPart(key: string): seq<string> {
    if key == "" then [] else [key]
  }

  function Names(ms: seq<Modifier>): (r: seq<string>)
    ensures |r| == |ms|
    ensures forall i :: 0 <= i < |ms| ==> r[i] == ModifierName(ms[i])
  {
    seq(|ms|, i requires 0 <= i < |ms| => ModifierName(ms[i]))
  }

  /** `normalizeCombo`. */
  function NormalizeCombo(combo: string): string {
    var ts := Tokens(combo);
    var finalModifiers := Names(SortByRank(Dedupe(ModifiersOf(ts))));
    var key := LastKey(ts);
    if key == "" then Join(finalModifiers, '+') else Join(finalModifiers + [key], '+')
  }

  /** A token as it can appear in a normalised combo. */
  predicate CleanToken(p: string) {
    p != "" && '+' !in p && IsTrimmed(p) && IsLower(p)
  }

  lemma TrimKeepsOut(p: string, c: char)
    requires c !in p
    ensures c !in Trim(p)
  {
    var r := Trim(p);
    forall k | 0 <= k < |r|
      ensures r[k] != c
    {
      assert r[k] == p[LeadingSpaces(p) + k];
      assert p[LeadingSpaces(p) + k] in p;
    }
  }

  lemma CleanIsClean(p: string)
    requires '+' !in p
    ensures '+' !in Clean(p) && IsTrimmed(Clean(p)) && IsLower(Clean(p))
  {
    TrimKeepsOut(p, '+');
    LowerFacts(Trim(p));
  }

  /** Every token of a combo is clean. */
  lemma TokensAreClean(combo: string)
    ensures forall t :: t in Tokens(combo) ==> CleanToken(t)
  {
    var parts := Split(combo, '+');
    var cleaned := CleanAll(parts);
    forall t | t in Tokens(combo)
      ensures CleanToken(t)
    {
      var i :| 0 <= i < |cleaned| && cleaned[i] == t;
      assert parts[i] in parts;
      CleanIsClean(parts[i]);
    }
  }

  /** Cleaning leaves clean tokens, and empty pieces, alone. */
  lemma CleanAllOfClean(parts: seq<string>)
    requires forall p :: p in parts ==> p == "" || CleanToken(p)
    ensures CleanAll(parts) == parts
  {
    forall i | 0 <= i < |parts|
      ensures Clean(parts[i]) == parts[i]
    {
      assert parts[i] in parts;
      TrimOfTrimmed(parts[i]);
      LowerFacts(parts[i]);
    }
  }

  /** Splitting a join of clean tokens, and cleaning, gives the tokens back. */
  lemma TokensOfJoin(parts: seq<string>)
    requires forall p :: p in parts ==> CleanToken(p)
    ensures Tokens(Join(parts, '+')) == parts
  {
    if |parts| == 0 {
      assert Split("", '+') == [""];
      assert Clean("") == "";
      assert CleanAll([""]) == [""];
      FilterDropsLast([], "", NonEmpty);
      assert [] + [""] == [""];
    } else {
      SplitJoin(parts, '+');
      CleanAllOfClean(parts);
      FilterKeepsAll(parts, NonEmpty);
    }
  }

  /** The names of modifiers followed by a key are clean tokens when the key is. */
  lemma PartsAreClean(ms: seq<Modifier>, key: string)
    requires key == "" || CleanToken(key)
    ensures forall p :: p in Names(ms) + KeyPart(key) ==> CleanToken(p)
  {
    forall p | p in Names(ms) + KeyPart(key)
      ensures CleanToken(p)
    {
      if p in Names(ms) {
        var i :| 0 <= i < |ms| && Names(ms)[i] == p;
        ModifierNameFacts(ms[i]);
      }
    }
  }

  /** The modifiers of a list of names followed by a key are those names' modifiers. */
  lemma ModifiersOfParts(ms: seq<Modifier>, key: string)
    requires key == "" || !IsModifier(key)
    ensures forall m :: m in ModifiersOf(Names(ms) + KeyPart(key)) <==> m in ms
  {
    forall m
      ensures ModifierName(m) in Names(ms) + KeyPart(key) <==> m in ms
    {
      ModifierNameFacts(m);
      if ModifierName(m) in Names(ms) {
        var i :| 0 <= i < |ms| && Names(ms)[i] == ModifierName(m);
        ModifierNameInjective(ms[i], m);
      }
      if m in ms {
        var i :| 0 <= i < |ms| && ms[i] == m;
        assert Names(ms)[i] == ModifierName(m);
      }
    }
  }

  /** The last key of modifier names followed by a non-modifier is that key. */
  lemma LastKeyOfParts(ms: seq<Modifier>, key: string)
    requires key == "" || !IsModifier(key)
    ensures LastKey(Names(ms) + KeyPart(key)) == key
  {
    var ts := Names(ms) + KeyPart(key);
    var keys := Filter(ts, IsKey);
    forall p | p in ts && p !in KeyPart(key)
      ensures IsModifier(p)
    {
      var i :| 0 <= i < |ms| && Names(ms)[i] == p;
      ModifierNameFacts(ms[i]);
    }
    assert forall k :: k in keys ==> k == key;
    if key != "" {
      assert key in ts;
      assert key in keys;
    }
    if |keys| > 0 {
      assert keys[|keys| - 1] in keys;
    }
  }

  /** The last key of a combo is a clean token that is not a modifier, or nothing. */
  lemma LastKeyIsKey(combo: string)
    ensures var key := LastKey(Tokens(combo)); key == "" || (CleanToken(key) && !IsModifier(key))
  {
    var ts := Tokens(combo);
    var keys := Filter(ts, IsKey);
    TokensAreClean(combo);
    if |keys| > 0 {
      assert keys[|keys| - 1] in keys;
    }
  }

  /**
   * What `normalizeCombo` computes: the names of the canonical modifier
   * list of the combo's tokens, followed by its last non-modifier token if
   * it has one.
   */
  lemma NormalizeComboIsCanonical(combo: string)
    ensures NormalizeCombo(combo)
      == Join(Names(Canonical(ModifiersOf(Tokens(combo)))) + KeyPart(LastKey(Tokens(combo))), '+')
  {
    var ts := Tokens(combo);
    FinalModifiersAreCanonical(ModifiersOf(ts));
    var names := Names(Canonical(ModifiersOf(ts)));
    assert names + [] == names;
  }

  /** A normalised combo's modifiers and key. */
  lemma TokensOfNormalized(combo: string)
    ensures var ts := Tokens(combo);
      && Tokens(NormalizeCombo(combo)) == Names(Canonical(ModifiersOf(ts))) + KeyPart(LastKey(ts))
  {
    var ts := Tokens(combo);
    var ms := Canonical(ModifiersOf(ts));
    var key := LastKey(ts);
    NormalizeComboIsCanonical(combo);
    LastKeyIsKey(combo);
    PartsAreClean(ms, key);
    TokensOfJoin(Names(ms) + KeyPart(key));
  }

  /** Normalising a normalised combo changes nothing. */
  lemma NormalizeIsIdempotent(combo: string)
    ensures NormalizeCombo(NormalizeCombo(combo)) == NormalizeCombo(combo)
  {
    var ts := Tokens(combo);
    var ms := Canonical(ModifiersOf(ts));
    var key := LastKey(ts);
    var ts' := Names(ms) + KeyPart(key);
    TokensOfNormalized(combo);
    LastKeyIsKey(combo);
    ModifiersOfParts(ms, key);
    SortedModifiersUnique(Canonical(ModifiersOf(ts')), ms);
    LastKeyOfParts(ms, key);
    NormalizeComboIsCanonical(NormalizeCombo(combo));
    NormalizeComboIsCanonical(combo);
  }

  /** A key event: the four modifier flags and the key's name. */
  datatype KeyEvent = KeyEvent(ctrlKey: bool, metaKey: bool, altKey: bool, shiftKey: bool, key: string)

  /** The modifiers `eventToCombo` writes: the meta key counts as ctrl. */
  function EventModifiers(e: KeyEvent): (ms: seq<Modifier>)
    ensures SortedByRank(ms) && NoDups(ms) && Meta !in ms
  {
    (if e.ctrlKey || e.metaKey then [Ctrl] else [])
    + (if e.altKey then [Alt] else [])
    + (if e.shiftKey then [Shift] else [])
  }

  /** `eventToCombo`. */
  function EventToCombo(e: KeyEvent): string {
    NormalizeCombo(Join(Names(EventModifiers(e)) + [NormalizeKey(e.key)], '+'))
  }

  /** A key name that survives normalisation as a key of its own. */
  predicate PlainKey(k: string) {
    CleanToken(k) && !IsModifier(k)
  }

  /**
   * For a plain key, the event's combo is its modifiers in the order ctrl,
   * alt, shift followed by the key; meta never appears, and ctrl appears
   * when either the control or the meta key is held.
   */
  lemma EventComboOfPlainKey(e: KeyEvent)
    requires PlainKey(NormalizeKey(e.key))
    ensures EventToCombo(e) == Join(Names(EventModifiers(e)) + [NormalizeKey(e.key)], '+')
  {
    var k := NormalizeKey(e.key);
    var ms := EventModifiers(e);
    var combo := Join(Names(ms) + KeyPart(k), '+');
    PartsAreClean(ms, k);
    TokensOfJoin(Names(ms) + KeyPart(k));
    ModifiersOfParts(ms, k);
    SortedModifiersUnique(Canonical(ModifiersOf(Names(ms) + KeyPart(k))), ms);
    LastKeyOfParts(ms, k);
    NormalizeComboIsCanonical(combo);
  }

  /**
   * A combo that names the meta modifier never matches an event with a plain
   * key: the meta key is read as ctrl.
   */
  lemma MetaCombosNeverMatch(e: KeyEvent, combo: string)
    requires PlainKey(NormalizeKey(e.key))
    requires "meta" in Tokens(combo)
    ensures EventToCombo(e) != NormalizeCombo(combo)
  {
    var k := NormalizeKey(e.key);
    var ms := EventModifiers(e);
    var ts := Tokens(combo);
    var cms := Canonical(ModifiersOf(ts));
    var key := LastKey(ts);
    var a := Names(ms) + KeyPart(k);
    var b := Names(cms) + KeyPart(key);
    EventComboOfPlainKey(e);
    assert KeyPart(k) == [k];
    NormalizeComboIsCanonical(combo);
    LastKeyIsKey(combo);
    PartsAreClean(cms, key);
    PartsAreClean(ms, k);
    ModifierNameFacts(Meta);
    assert Meta in cms;
    ModifiersOfParts(ms, k);
    ModifiersOfParts(cms, key);
    if EventToCombo(e) == NormalizeCombo(combo) {
      SameJoinSameParts(a, b);
      assert false;
    }
  }

  /** Equal joins of clean, non-empty part lists have equal parts. */
  lemma SameJoinSameParts(a: seq<string>, b: seq<string>)
    requires |a| >= 1 && |b| >= 1
    requires forall p :: p in a ==> CleanToken(p)
    requires forall p :: p in b ==> CleanToken(p)
    requires Join(a, '+') == Join(b, '+')
    ensures a == b
  {
    JoinInjective(a, b, '+');
  }

  /** Joining one more piece onto a non-empty list. */
  lemma {:induction false} JoinSnoc(xs: seq<string>, y: string, sep: char)
    requires |xs| >= 1
    ensures Join(xs + [y], sep) == Join(xs, sep) + [sep] + y
  {
    if |xs| > 1 {
      assert (xs + [y])[1..] == xs[1..] + [y];
      JoinSnoc(xs[1..], y, sep);
    }
  }

  /** A trailing '+' key joins to the same string as two trailing empty pieces. */
  lemma PlusJoin(names: seq<string>)
    ensures Join(names + ["+"], '+') == Join(names + ["", ""], '+')
  {
    if |names| > 0 {
      JoinSnoc(names, "+", '+');
      JoinSnoc(names, "", '+');
      JoinSnoc(names + [""], "", '+');
      assert names + [""] + [""] == names + ["", ""];
    }
  }

  /**
   * The '+' key is lost: its name is the separator, so the event's combo is
   * its modifiers alone, and no combo can bind the plus key itself.
   */
  lemma PlusKeyIsDropped(e: KeyEvent)
    requires e.key == "+"
    ensures EventToCombo(e) == Join(Names(EventModifiers(e)), '+')
  {
    PlusIsSpecial();
    PlusComboNormalizes(EventModifiers(e));
  }

  /** Canonical modifier names followed by a '+' normalise to the names alone. */
  lemma PlusComboNormalizes(ms: seq<Modifier>)
    requires SortedByRank(ms) && NoDups(ms)
    ensures NormalizeCombo(Join(Names(ms) + ["+"], '+')) == Join(Names(ms), '+')
  {
    var names := Names(ms);
    var combo := Join(names + ["+"], '+');
    PartsAreClean(ms, "");
    assert names + [] == names;
    TokensWithTrailingPlus(names);
    NormalizeOfTokens(combo, ms, "");
  }

  lemma PlusIsSpecial()
    ensures NormalizeKey("+") == "+"
  {
  }

  /** A trailing '+' adds no token. */
  lemma TokensWithTrailingPlus(names: seq<string>)
    requires forall p :: p in names ==> CleanToken(p)
    ensures Tokens(Join(names + ["+"], '+')) == names
  {
    var parts := names + ["", ""];
    assert Join(names + ["+"], '+') == Join(parts, '+') by {
      PlusJoin(names);
    }
    assert Split(Join(parts, '+'), '+') == parts by {
      assert forall p :: p in parts ==> p == "" || CleanToken(p);
      SplitJoin(parts, '+');
    }
    assert CleanAll(parts) == parts by {
      assert forall p :: p in parts ==> p == "" || CleanToken(p);
      CleanAllOfClean(parts);
    }
    DropTrailingEmpties(names);
  }

  /** Two trailing empty pieces are filtered out, and nothing else is. */
  lemma DropTrailingEmpties(names: seq<string>)
    requires forall p :: p in names ==> CleanToken(p)
    ensures Filter(names + ["", ""], NonEmpty) == names
  {
    assert names + ["", ""] == names + [""] + [""];
    FilterDropsLast(names + [""], "", NonEmpty);
    FilterDropsLast(names, "", NonEmpty);
    FilterKeepsAll(names, NonEmpty);
  }

  /**
   * A combo whose tokens are already canonical modifier names followed by a
   * key normalises to exactly those tokens.
   */
  lemma NormalizeOfTokens(combo: string, ms: seq<Modifier>, key: string)
    requires SortedByRank(ms) && NoDups(ms)
    requires key == "" || !IsModifier(key)
    requires Tokens(combo) == Names(ms) + KeyPart(key)
    ensures NormalizeCombo(combo) == Join(Names(ms) + KeyPart(key), '+')
  {
    ModifiersOfParts(ms, key);
    SortedModifiersUnique(Canonical(ModifiersOf(Names(ms) + KeyPart(key))), ms);
    LastKeyOfParts(ms, key);
    NormalizeComboIsCanonical(combo);
  }

  /**
   * Command+Shift+F on a Mac keyboard (meta and shift held, key "F")
   * produces the combo the fit-to-screen command registers, "ctrl+shift+f".
   */
  lemma MetaShiftFExample()
    ensures EventToCombo(KeyEvent(false, true, false, true, "F")) == NormalizeCombo("ctrl+shift+f")
    ensures NormalizeCombo("ctrl+shift+f") == "ctrl+shift+f"
  {
    var e := KeyEvent(false, true, false, true, "F");
    var ms := [Ctrl, Shift];
    assert NormalizeKey("F") == "f" by {
      assert Lower("F") == "f";
    }
    assert EventModifiers(e) == ms;
    assert Names(ms) == ["ctrl", "shift"];
    var parts := ["ctrl", "shift", "f"];
    assert CleanToken("f") && !IsModifier("f");
    assert Join(parts, '+') == "ctrl+shift+f";
    assert Names(ms) + KeyPart("f") == parts;
    EventComboOfPlainKey(e);
    PartsAreClean(ms, "f");
    TokensOfJoin(parts);
    NormalizeOfTokens("ctrl+shift+f", ms, "f");
  }

  /**
   * The handler lists, keyed by normalised combo, and whether the keydown
   * listener has been attached. Handlers are opaque values called in order.
   */
  datatype Registry<H> = Registry(handlers: map<string, seq<H>>, listenerAttached: bool)

  function HandlersFor<H>(reg: Registry<H>, combo: string): seq<H> {
    if combo in reg.handlers then reg.handlers[combo] else []
  }

  /** Appends a handler to the list of an already normalised combo and attaches the listener. */
  function AddHandler<H>(reg: Registry<H>, normalized: string, h: H): (r: Registry<H>)
    ensures r.listenerAttached
    ensures HandlersFor(r, normalized) == HandlersFor(reg, normalized) + [h]
    ensures forall c :: c != normalized ==> HandlersFor(r, c) == HandlersFor(reg, c)
    ensures r.handlers.Keys == reg.handlers.Keys + {normalized}
  {
    Registry(reg.handlers[normalized := HandlersFor(reg, normalized) + [h]], true)
  }

  /**
   * `registerHotkey`: the handler is appended to the list of the normalised
   * combo, and the listener is attached (once).
   */
  function RegisterHotkey<H>(reg: Registry<H>, combo: string, h: H): (r: Registry<H>)
    ensures r.listenerAttached
    ensures HandlersFor(r, NormalizeCombo(combo)) == HandlersFor(reg, NormalizeCombo(combo)) + [h]
    ensures forall c :: c != NormalizeCombo(combo) ==> HandlersFor(r, c) == HandlersFor(reg, c)
    ensures r.handlers.Keys == reg.handlers.Keys + {NormalizeCombo(combo)}
  {
    AddHandler(reg, NormalizeCombo(combo), h)
  }

  /**
   * The handlers a keydown event calls, in order: those registered under the
   * event's combo, or none while no listener is attached.
   */
  function Dispatch<H>(reg: Registry<H>, e: KeyEvent): seq<H> {
    if reg.listenerAttached then HandlersFor(reg, EventToCombo(e)) else []
  }

  /** A registry whose listener is attached whenever it holds a handler list. */
  predicate Attached<H>(reg: Registry<H>) {
    reg.listenerAttached || reg.handlers == map[]
  }

  /**
   * Registering adds the handler at the end of what an event calls exactly
   * when the event's combo is the registered one; other events are unaffected.
   */
  lemma RegisterThenDispatch<H>(reg: Registry<H>, combo: string, h: H, e: KeyEvent)
    requires Attached(reg)
    ensures Dispatch(RegisterHotkey(reg, combo, h), e)
      == Dispatch(reg, e) + (if EventToCombo(e) == NormalizeCombo(combo) then [h] else [])
  {
    if !reg.listenerAttached {
      assert HandlersFor(reg, EventToCombo(e)) == [];
      assert HandlersFor(reg, NormalizeCombo(combo)) == [];
    }
  }

  /** Two spellings of one combo register into the same list. */
  lemma SpellingsShareHandlers<H>(reg: Registry<H>, c1: string, c2: string, h1: H, h2: H)
    requires NormalizeCombo(c1) == NormalizeCombo(c2)
    ensures HandlersFor(RegisterHotkey(RegisterHotkey(reg, c1, h1), c2, h2), NormalizeCombo(c1))
      == HandlersFor(reg, NormalizeCombo(c1)) + [h1, h2]
  {
  }
}
