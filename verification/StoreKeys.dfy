/** The key namespace of packages/trace/src/runtime/historyStore.ts: keys as texts and what a text test says about them. */
module StoreKeys {
  import opened Wrappers
  import opened Bytes

  type Id = seq<unit>

  datatype Key = EnabledKey | MetaKey(id: Id) | ChunkKey(id: Id, index: nat)

  const DOT: unit := 46

  /** The units of an ASCII text. */
  function Ascii(s: string): seq<unit> {
    seq(|s|, i requires 0 <= i < |s| => if s[i] as int < 128 then s[i] as int else 0)
  }

  function StorePrefix(): seq<unit> { Ascii("begame.trace.v1.") }

  function Decimal(n: nat): (r: seq<unit>)
    ensures r != [] && forall i :: 0 <= i < |r| ==> 48 <= r[i] < 58
  {
    (if n < 10 then [] else Decimal(n / 10)) + [48 + n % 10]
  }

  lemma {:induction false} DecimalInjective(n: nat, m: nat)
    requires Decimal(n) == Decimal(m)
    ensures n == m
  {
    var a, b := Decimal(n), Decimal(m);
    assert a[|a| - 1] == 48 + n % 10 && b[|b| - 1] == 48 + m % 10;
    assert a[..|a| - 1] == if n < 10 then [] else Decimal(n / 10);
    assert b[..|b| - 1] == if m < 10 then [] else Decimal(m / 10);
    if n >= 10 && m >= 10 {
      DecimalInjective(n / 10, m / 10);
    }
  }

  /** What follows the prefix and the dot of the session. */
  function Suffix(k: Key): seq<unit>
    requires !k.EnabledKey?
  {
    match k case MetaKey(_) => Ascii("meta") case ChunkKey(_, index) => Decimal(index)
  }

  /** The part of a key after the store's prefix. */
  function Local(k: Key): seq<unit> {
    if k.EnabledKey? then Ascii("enabled") else k.id + [DOT] + Suffix(k)
  }

  function Render(k: Key): seq<unit> { StorePrefix() + Local(k) }

  lemma AsciiJoins(s: string, t: string)
    ensures Ascii(s + t) == Ascii(s) + Ascii(t)
  {
  }

  lemma DotIs()
    ensures Ascii(".") == [DOT]
  {
  }

  /** The texts of the keys. */
  lemma KeyTexts(id: Id, index: nat)
    ensures Render(EnabledKey) == Ascii("begame.trace.v1.enabled")
    ensures Render(MetaKey(id)) == Ascii("begame.trace.v1.") + id + Ascii(".meta")
    ensures Render(ChunkKey(id, index)) == Ascii("begame.trace.v1.") + id + Ascii(".") + Decimal(index)
  {
    hide Ascii, Decimal;
    DotIs();
    AsciiJoins("begame.trace.v1.", "enabled");
    AsciiJoins(".", "meta");
    assert "begame.trace.v1." + "enabled" == "begame.trace.v1.enabled" && "." + "meta" == ".meta";
    Associative(StorePrefix(), id, [DOT] + Ascii("meta"));
    Associative(id, [DOT], Ascii("meta"));
    Associative(StorePrefix() + id, [DOT], Decimal(index));
    Associative(StorePrefix(), id, [DOT] + Decimal(index));
    Associative(id, [DOT], Decimal(index));
  }

  lemma DecimalTexts()
    ensures Decimal(0) == [48] && Decimal(305) == [51, 48, 53]
  {
    assert Decimal(30) == Decimal(3) + [48] && Decimal(3) == [] + [51];
  }

  function SessionPrefix(id: Id): seq<unit> { StorePrefix() + id + [DOT] }

  predicate StartsWith(s: seq<unit>, prefix: seq<unit>) { |prefix| <= |s| && s[..|prefix|] == prefix }

  predicate EndsWith(s: seq<unit>, suffix: seq<unit>) { |suffix| <= |s| && s[|s| - |suffix|..] == suffix }

  /** Session ids are made of base-36 numbers and dashes. */
  predicate Dotless(id: Id) { DOT !in id }

  predicate OfSession(k: Key, id: Id) { !k.EnabledKey? && k.id == id }

  /** How `list` recognises a session record. */
  predicate LooksLikeMeta(text: seq<unit>) { StartsWith(text, StorePrefix()) && EndsWith(text, Ascii(".meta")) }

  lemma DropPrefix(p: seq<unit>, a: seq<unit>, b: seq<unit>)
    ensures StartsWith(p + a, p + b) <==> StartsWith(a, b)
    ensures p + a == p + b <==> a == b
  {
    if |b| <= |a| {
      assert (p + a)[..|p| + |b|] == p + a[..|b|];
    }
    assert (p + a)[|p|..] == a && (p + b)[|p|..] == b && (p + a[..if |b| <= |a| then |b| else 0])[|p|..] == a[..if |b| <= |a| then |b| else 0];
  }

  /** A name that ends in a part without a dot begins with `b.` exactly if it is `b` or its front does. */
  lemma LastDot(a: Id, x: seq<unit>, b: Id)
    requires DOT !in x
    ensures StartsWith(a + [DOT] + x, b + [DOT]) <==> a == b || StartsWith(a, b + [DOT])
  {
    var s, front := a + [DOT] + x, b + [DOT];
    assert forall i :: 0 <= i < |a| ==> s[i] == a[i];
    assert forall i :: |a| < i < |s| ==> s[i] == x[i - |a| - 1] != DOT;
    assert s[|a|] == DOT == front[|b|];
    if StartsWith(s, front) {
      assert forall i :: 0 <= i < |front| ==> s[i] == front[i];
      assert |b| <= |a|;
      if |b| == |a| {
        assert a == s[..|a|] == front[..|b|] == b;
      } else {
        assert a[..|front|] == s[..|front|];
      }
    }
    if a == b {
      assert s[..|front|] == front;
    } else if StartsWith(a, front) {
      assert s[..|front|] == a[..|front|];
    }
  }

  lemma PrefixUnit(s: seq<unit>, prefix: seq<unit>, i: nat)
    requires i < |prefix|
    ensures StartsWith(s, prefix) ==> i < |s| && s[i] == prefix[i]
  {
  }

  lemma EnabledHasNoDot(id: Id)
    ensures !StartsWith(Ascii("enabled"), id + [DOT])
  {
    var s, front := Ascii("enabled"), id + [DOT];
    assert forall i :: 0 <= i < |s| ==> s[i] != DOT;
    assert front[|id|] == DOT;
    PrefixUnit(s, front, |id|);
  }

  lemma SuffixHasNoDot(k: Key)
    requires !k.EnabledKey?
    ensures DOT !in Suffix(k)
  {
    if k.MetaKey? {
      var s := Ascii("meta");
      assert forall i :: 0 <= i < |s| ==> s[i] != DOT;
    }
  }

  /**
   * The prefix of a session reaches its own keys and, beyond them, exactly those of the
   * sessions whose id begins with this id and a dot.
   */
  lemma PrefixReaches(k: Key, id: Id)
    ensures StartsWith(Render(k), SessionPrefix(id)) <==>
      OfSession(k, id) || (!k.EnabledKey? && StartsWith(k.id, id + [DOT]))
  {
    hide Ascii, Suffix;
    Associative(StorePrefix(), id, [DOT]);
    DropPrefix(StorePrefix(), Local(k), id + [DOT]);
    if k.EnabledKey? {
      EnabledHasNoDot(id);
    } else {
      SuffixHasNoDot(k);
      LastDot(k.id, Suffix(k), id);
    }
  }

  /** Deleting by prefix reaches the keys of the session and no other, as long as no id has a dot. */
  lemma PrefixSelects(k: Key, id: Id)
    requires Dotless(id) && (!k.EnabledKey? ==> Dotless(k.id))
    ensures StartsWith(Render(k), SessionPrefix(id)) <==> OfSession(k, id)
  {
    hide Render, SessionPrefix;
    PrefixReaches(k, id);
    if !k.EnabledKey? && StartsWith(k.id, id + [DOT]) {
      PrefixUnit(k.id, id + [DOT], |id|);
    }
  }

  /** So every session can be deleted together with any that extends its id by a dot. */
  lemma DottedIdLeaks(id: Id, more: seq<unit>)
    ensures var other := MetaKey(id + [DOT] + more);
      StartsWith(Render(other), SessionPrefix(id)) && !OfSession(other, id)
  {
    var longer := id + [DOT] + more;
    assert longer[..|id| + 1] == id + [DOT];
    PrefixReaches(MetaKey(longer), id);
  }

  /** A text that ends like a session record has an `a` at its end. */
  lemma EndsInA(text: seq<unit>, x: unit)
    requires x != 97
    ensures !EndsWith(text + [x], Ascii(".meta"))
  {
    var s, meta := text + [x], Ascii(".meta");
    assert |meta| == 5 && meta[4] == 97;
    if |meta| <= |s| {
      assert s[|s| - 5..][4] == x;
    }
  }

  lemma EndsAsIs(front: seq<unit>, suffix: seq<unit>)
    ensures EndsWith(front + suffix, suffix) && StartsWith(front + suffix, front)
  {
  }

  lemma AsciiParts()
    ensures Ascii("enabled") == Ascii("enable") + [100] && Ascii(".meta") == [DOT] + Ascii("meta")
  {
  }

  /** Exactly the session records look like session records. */
  lemma MetaSelects(k: Key)
    requires !k.EnabledKey? ==> Dotless(k.id)
    ensures LooksLikeMeta(Render(k)) <==> k.MetaKey?
  {
    hide StorePrefix, EndsWith, StartsWith, Ascii, Decimal;
    var prefix := StorePrefix();
    EndsAsIs(prefix, Local(k));
    AsciiParts();
    match k {
      case EnabledKey =>
        EndsInA(prefix + Ascii("enable"), 100);
        Associative(prefix, Ascii("enable"), [100]);
      case MetaKey(id) =>
        EndsAsIs(prefix + id, Ascii(".meta"));
        Associative(id, [DOT], Ascii("meta"));
        Associative(prefix, id, Ascii(".meta"));
      case ChunkKey(id, index) =>
        var digits := Decimal(index);
        var front, last := digits[..|digits| - 1], digits[|digits| - 1];
        assert digits == front + [last];
        EndsInA(prefix + (id + [DOT] + front), last);
        Associative(id + [DOT], front, [last]);
        Associative(prefix, id + [DOT] + front, [last]);
    }
  }

  lemma SameSession(k: Key, l: Key)
    requires !k.EnabledKey? && !l.EnabledKey? && k.id == l.id && Render(k) == Render(l)
    ensures Suffix(k) == Suffix(l)
  {
    hide Ascii, Suffix, StorePrefix;
    DropPrefix(StorePrefix(), Local(k), Local(l));
    DropPrefix(k.id + [DOT], Suffix(k), Suffix(l));
  }

  /** Different keys have different texts, so a store of texts is a store of keys. */
  lemma RenderInjective(k: Key, l: Key)
    requires (!k.EnabledKey? ==> Dotless(k.id)) && (!l.EnabledKey? ==> Dotless(l.id))
    requires Render(k) == Render(l)
    ensures k == l
  {
    hide Ascii, Render, LooksLikeMeta, StartsWith, Decimal;
    MetaSelects(k);
    MetaSelects(l);
    if !k.EnabledKey? {
      PrefixSelects(k, k.id);
      PrefixSelects(l, k.id);
      SameSession(k, l);
      if k.ChunkKey? {
        DecimalInjective(k.index, l.index);
      }
    } else if !l.EnabledKey? {
      PrefixSelects(k, l.id);
      PrefixSelects(l, l.id);
    }
  }
}
