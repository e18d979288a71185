/** The keyboard-shortcut normaliser of src/hooks/useKeyboardShortcuts.js:
    a canonical key string built from an event, and the exact lookup of
    that string in the shortcut map. */
module Keyboard {
  import opened Common
  import opened Text

  /** The fields of a `KeyboardEvent` that the hook reads. */
  datatype KeyEvent = KeyEvent(key: string, ctrlKey: bool, metaKey: bool, shiftKey: bool, altKey: bool)

  /** Ctrl on Windows/Linux, Cmd on macOS. */
  predicate IsModifierPressed(e: KeyEvent) {
    e.ctrlKey || e.metaKey
  }

  /** `event.key.toLowerCase()`, with the space bar renamed. */
  function NormalizeKey(key: string): (r: string)
    ensures Lower(r) == r
    ensures r != " "
    ensures r == "space" <==> Lower(key) == " " || Lower(key) == "space"
    ensures Lower(key) != " " ==> r == Lower(key)
  {
    LowerIdempotent(key);
    var k := Lower(key);
    if k == " " then "space" else k
  }

  /** The key names that are modifiers themselves and never form the key part. */
  predicate IsModifierName(k: string) {
    k == "control" || k == "meta" || k == "shift" || k == "alt"
  }

  /** `[x]` when `b` holds, else nothing: one conditional `parts.push(x)`. */
  function Opt<T>(b: bool, x: T): seq<T> {
    if b then [x] else []
  }

  /** The parts `getKeyString` pushes, in order. */
  function KeyParts(e: KeyEvent): seq<string> {
    var k := NormalizeKey(e.key);
    Opt(IsModifierPressed(e), "ctrl") + Opt(e.shiftKey, "shift") + Opt(e.altKey, "alt") + Opt(!IsModifierName(k), k)
  }

  /** An element of four conditional pushes is one of the pushed values. */
  lemma OptIn<T>(b1: bool, b2: bool, b3: bool, b4: bool, w: T, x: T, y: T, z: T, v: T)
    ensures v in Opt(b1, w) + Opt(b2, x) + Opt(b3, y) + Opt(b4, z) <==>
      (b1 && v == w) || (b2 && v == x) || (b3 && v == y) || (b4 && v == z)
  {
  }

  /** Four conditional pushes hold one element per true flag, and the
      last push, when made, ends the sequence. */
  lemma OptShape<T>(b1: bool, b2: bool, b3: bool, b4: bool, w: T, x: T, y: T, z: T)
    ensures var s := Opt(b1, w) + Opt(b2, x) + Opt(b3, y) + Opt(b4, z);
      |s| == (if b1 then 1 else 0) + (if b2 then 1 else 0) + (if b3 then 1 else 0) + (if b4 then 1 else 0) &&
      (b4 ==> s[|s| - 1] == z)
  {
  }

  /** At most four parts; "shift" and "alt" appear exactly when held;
      "ctrl" appears for Ctrl or Cmd (or a key that is itself named
      "ctrl"); the modifier names "control" and "meta" never appear. */
  lemma KeyPartsSpec(e: KeyEvent)
    ensures |KeyParts(e)| <= 4
    ensures "shift" in KeyParts(e) <==> e.shiftKey
    ensures "alt" in KeyParts(e) <==> e.altKey
    ensures "ctrl" in KeyParts(e) <==> IsModifierPressed(e) || NormalizeKey(e.key) == "ctrl"
    ensures "control" !in KeyParts(e) && "meta" !in KeyParts(e)
    ensures !IsModifierName(NormalizeKey(e.key)) ==>
      KeyParts(e) != [] && KeyParts(e)[|KeyParts(e)| - 1] == NormalizeKey(e.key)
    ensures IsModifierName(NormalizeKey(e.key)) ==>
      |KeyParts(e)| == (if IsModifierPressed(e) then 1 else 0) + (if e.shiftKey then 1 else 0) + (if e.altKey then 1 else 0)
  {
    var k := NormalizeKey(e.key);
    var b1, b2, b3, b4 := IsModifierPressed(e), e.shiftKey, e.altKey, !IsModifierName(k);
    OptIn(b1, b2, b3, b4, "ctrl", "shift", "alt", k, "shift");
    OptIn(b1, b2, b3, b4, "ctrl", "shift", "alt", k, "alt");
    OptIn(b1, b2, b3, b4, "ctrl", "shift", "alt", k, "ctrl");
    OptIn(b1, b2, b3, b4, "ctrl", "shift", "alt", k, "control");
    OptIn(b1, b2, b3, b4, "ctrl", "shift", "alt", k, "meta");
    OptShape(b1, b2, b3, b4, "ctrl", "shift", "alt", k);
  }

  /** The canonical key string, e.g. "ctrl+shift+n" or "escape". */
  function KeyString(e: KeyEvent): string {
    Join(KeyParts(e), '+')
  }

  /** `getKeyString`: pushes the parts one by one and joins them with '+'. */
  method GetKeyString(e: KeyEvent) returns (s: string)
    ensures s == KeyString(e)
  {
    var parts: seq<string> := [];
    if IsModifierPressed(e) {
      parts := parts + ["ctrl"];
    }
    if e.shiftKey {
      parts := parts + ["shift"];
    }
    if e.altKey {
      parts := parts + ["alt"];
    }
    assert parts == Opt(IsModifierPressed(e), "ctrl") + Opt(e.shiftKey, "shift") + Opt(e.altKey, "alt");
    var key := Lower(e.key);
    if key == " " {
      key := "space";
    }
    assert key == NormalizeKey(e.key);
    if !IsModifierName(key) {
      parts := parts + [key];
    }
    assert parts == KeyParts(e);
    s := Join(parts, '+');
  }

  /** Four conditional pushes keep the order of the pushed values. */
  lemma OptSubsequence<T>(b1: bool, b2: bool, b3: bool, b4: bool, w: T, x: T, y: T, z: T)
    ensures IsSubsequence(Opt(b1, w) + Opt(b2, x) + Opt(b3, y) + Opt(b4, z), [w, x, y, z])
  {
    var a, b, c, d := Opt(b1, w), Opt(b2, x), Opt(b3, y), Opt(b4, z);
    assert a + b + c + d == a + (b + (c + d));
    SubsequenceOfSelf(d);
    assert IsSubsequence(d, [z]);
    OptCons(b3, y, d, [z]);
    OptCons(b2, x, c + d, [y, z]);
    OptCons(b1, w, b + (c + d), [x, y, z]);
  }

  /** Prefixing the bigger side by `x`, and the smaller one by `x` or
      nothing, keeps a subsequence. */
  lemma OptCons<T>(p: bool, x: T, rest: seq<T>, tail: seq<T>)
    requires IsSubsequence(rest, tail)
    ensures IsSubsequence(Opt(p, x) + rest, [x] + tail)
  {
    assert ([x] + tail)[1..] == tail;
    if p {
      assert (Opt(p, x) + rest)[0] == x && (Opt(p, x) + rest)[1..] == rest;
    } else {
      assert Opt(p, x) + rest == rest;
      SubsequencePrepend(rest, tail, x);
    }
  }

  /** The parts appear in the fixed order ctrl, shift, alt, key. */
  lemma KeyPartsOrder(e: KeyEvent)
    ensures IsSubsequence(KeyParts(e), ["ctrl", "shift", "alt", NormalizeKey(e.key)])
  {
    var k := NormalizeKey(e.key);
    OptSubsequence(IsModifierPressed(e), e.shiftKey, e.altKey, !IsModifierName(k), "ctrl", "shift", "alt", k);
  }

  /** Cmd+N and Ctrl+N give the same string. */
  lemma MetaIsCtrl(e: KeyEvent)
    ensures KeyString(e.(ctrlKey := false, metaKey := true)) == KeyString(e.(ctrlKey := true, metaKey := false))
  {
  }

  /** Ctrl+N (or Cmd+N) gives the key string "ctrl+n". */
  lemma CtrlNParts(meta: bool)
    ensures KeyParts(KeyEvent("N", !meta, meta, false, false)) == ["ctrl", "n"]
    ensures KeyString(KeyEvent("N", !meta, meta, false, false)) == "ctrl+n"
  {
    var e := KeyEvent("N", !meta, meta, false, false);
    assert Lower("N")[0] == 'n';
    assert NormalizeKey(e.key) == "n";
    assert !IsModifierName("n");
    assert KeyParts(e) == ["ctrl", "n"];
    assert Join(["ctrl", "n"], '+') == "ctrl" + ['+'] + Join(["n"], '+');
  }

  /** Lowercasing (and the space-bar rename) adds no '+'. */
  lemma NormalizeKeyNoPlus(key: string)
    requires '+' !in key
    ensures '+' !in NormalizeKey(key)
  {
    forall i | 0 <= i < |key| ensures Lower(key)[i] != '+' {
      assert key[i] != '+';
    }
  }

  /** The string can be split back into its parts when the key itself has no '+'. */
  lemma KeyStringSplits(e: KeyEvent)
    requires '+' !in e.key && KeyParts(e) != []
    ensures Split(KeyString(e), '+') == KeyParts(e)
  {
    var parts, k := KeyParts(e), NormalizeKey(e.key);
    NormalizeKeyNoPlus(e.key);
    forall j | 0 <= j < |parts| ensures '+' !in parts[j] {
      OptIn(IsModifierPressed(e), e.shiftKey, e.altKey, !IsModifierName(k), "ctrl", "shift", "alt", k, parts[j]);
    }
    SplitJoin(parts, '+');
  }

  /** What the shortcut map holds under a key string: a function (named
      here by its handler) or some other value. */
  datatype Binding = Callback(handler: string) | NotCallable

  /** `handleKeyDown`'s decision: the handler that runs (after
      `preventDefault`), or `None` when nothing happens. */
  function Dispatch(shortcuts: map<string, Binding>, e: KeyEvent): (r: Option<string>)
    ensures r.Some? <==> KeyString(e) in shortcuts && shortcuts[KeyString(e)].Callback?
    ensures r.Some? ==> Callback(r.value) == shortcuts[KeyString(e)]
  {
    var ks := KeyString(e);
    if ks in shortcuts && shortcuts[ks].Callback? then Some(shortcuts[ks].handler) else None
  }

  /** Only the exact string selects a handler: bindings under other strings
      do not matter. */
  lemma DispatchIsExact(shortcuts: map<string, Binding>, other: map<string, Binding>, e: KeyEvent)
    requires KeyString(e) in shortcuts <==> KeyString(e) in other
    requires KeyString(e) in shortcuts ==> shortcuts[KeyString(e)] == other[KeyString(e)]
    ensures Dispatch(shortcuts, e) == Dispatch(other, e)
  {
  }
}
