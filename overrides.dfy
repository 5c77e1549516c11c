/**
 * The dependency-override rewriter `_overrideDependencies` (src/Mixin.js:146-164):
 * an override string `key1:[a,b],key2:[c]` gives new `depends` lists to entries of
 * a descriptor's `logic`.
 */
module Overrides {
  import opened Wrappers
  import opened Text
  import opened Values
  import opened Errors

  /** `${overrideDepends},`.split('],').filter(x => x !== '') */
  function OverridePieces(overrideDepends: Value): seq<string>
  {
    NonEmpty(Split(ToJsString(overrideDepends) + ",", "],"))
  }

  function NonEmpty(xs: seq<string>): (r: seq<string>)
    ensures forall k :: 0 <= k < |r| ==> r[k] != ""
    ensures (forall k :: 0 <= k < |xs| ==> xs[k] != "") ==> r == xs
  {
    if |xs| == 0 then []
    else if xs[0] == "" then NonEmpty(xs[1..])
    else [xs[0]] + NonEmpty(xs[1..])
  }

  /** The only ways a rewrite fails: an invalid key, or a host `TypeError`. */
  predicate OverrideFailure(f: Failure)
  {
    f == HostTypeError || (f.Mixin? && f.error.InvalidDependencyOverride?)
  }

  /** The descriptor's `logic` after some rewriting, and the failure that stopped it, if any. */
  datatype Rewrite = Rewrite(logic: Value, failure: Option<Failure>)

  /** The `{ action() { mixin.logic[key] }, depends }` object that replaces a plain function. */
  function Wrapped(deps: seq<string>): Value
  {
    Record(["action", "depends"], map["action" := Noop, "depends" := Strings(deps)])
  }

  /**
   * One `key:[deps` piece. `piece.split(':[')` gives the key and the dependency
   * text; reading `logic[key]` throws when `logic` is nil; a nil entry is an
   * invalid override; a function is replaced by a new `{action, depends}` object
   * whose action does not call it; an object keeps its action and gets the new
   * `depends` (a record only: named properties on arrays are not modelled); any
   * other entry is left alone. A missing dependency text (`undefined.split`)
   * throws before anything is written.
   */
  function RewriteOne(logic: Value, piece: string): (r: Rewrite)
    ensures r.failure.Some? ==> OverrideFailure(r.failure.value)
  {
    var parts := Split(piece, ":[");
    var key := parts[0];
    if IsNil(logic) then Rewrite(logic, Some(HostTypeError))
    else
      var entry := Get(logic, key);
      if IsNil(entry) then Rewrite(logic, Some(Mixin(InvalidDependencyOverride(key))))
      else if IsFunction(entry) || TypeOf(entry) == "object" then
        if |parts| < 2 then Rewrite(logic, Some(HostTypeError))
        else
          var deps := Split(parts[1], ",");
          if IsFunction(entry) then
            assert logic.Record? || logic.List?;
            Rewrite(Set(logic, key, Wrapped(deps)), None)
          else if entry.Record? && (logic.Record? || logic.List?) then
            Rewrite(Set(logic, key, Set(entry, "depends", Strings(deps))), None)
          else Rewrite(logic, None)
      else Rewrite(logic, None)
  }

  /** The pieces applied in order, stopping at the first failure with what was written so far. */
  function RewriteAll(logic: Value, pieces: seq<string>): (r: Rewrite)
    ensures r.failure.Some? ==> OverrideFailure(r.failure.value)
    // reading `mixin.logic[key]` with no `logic` throws at the first piece
    ensures IsNil(logic) ==> r == Rewrite(logic, if |pieces| == 0 then None else Some(HostTypeError))
    decreases |pieces|
  {
    if |pieces| == 0 then Rewrite(logic, None)
    else
      var done := RewriteAll(logic, pieces[..|pieces| - 1]);
      if done.failure.Some? then done else RewriteOne(done.logic, pieces[|pieces| - 1])
  }

  /**
   * `_overrideDependencies(mixin, overrideDepends)` on the descriptor's `logic`,
   * as the source's loop runs it. The rewritten `logic` is returned even on
   * failure: entries rewritten before the failing piece stay rewritten.
   */
  method OverrideDependencies(logic: Value, overrideDepends: Value) returns (r: Rewrite)
    ensures r == RewriteAll(logic, OverridePieces(overrideDepends))
  {
    var overrides := OverridePieces(overrideDepends);
    var current := logic;
    var i := 0;
    while i < |overrides|
      invariant 0 <= i <= |overrides|
      invariant RewriteAll(logic, overrides[..i]) == Rewrite(current, None)
    {
      var step := RewriteOne(current, overrides[i]);
      RewriteAllStep(logic, overrides, i);
      if step.failure.Some? {
        RewriteAllStops(logic, overrides, i + 1);
        return step;
      }
      current := step.logic;
      i := i + 1;
    }
    assert overrides[..i] == overrides;
    r := Rewrite(current, None);
  }

  lemma RewriteAllStep(logic: Value, pieces: seq<string>, i: nat)
    requires i < |pieces|
    ensures var done := RewriteAll(logic, pieces[..i]);
      RewriteAll(logic, pieces[..i + 1]) == if done.failure.Some? then done else RewriteOne(done.logic, pieces[i])
  {
    assert pieces[..i + 1][..i] == pieces[..i];
  }

  /** Once a prefix fails, longer prefixes fail the same way. */
  lemma {:induction false} RewriteAllStops(logic: Value, pieces: seq<string>, n: nat)
    requires n <= |pieces| && RewriteAll(logic, pieces[..n]).failure.Some?
    ensures RewriteAll(logic, pieces) == RewriteAll(logic, pieces[..n])
    decreases |pieces| - n
  {
    if n < |pieces| {
      assert pieces[..n + 1][..n] == pieces[..n];
      RewriteAllStops(logic, pieces, n + 1);
    } else {
      assert pieces[..n] == pieces;
    }
  }

}

/** The override syntax read back: rendering override lists and parsing them again. */
module OverrideSyntax {
  import opened Wrappers
  import opened Text
  import opened Values
  import opened Errors
  import opened Overrides

  /** One `key:[dep,dep]` group of an override string. */
  datatype DependencyOverride = DependencyOverride(key: string, deps: seq<string>)

  /** A name that holds none of the override syntax's punctuation. */
  predicate Token(s: string)
  {
    forall i :: 0 <= i < |s| ==> s[i] != ',' && s[i] != ':' && s[i] != '[' && s[i] != ']'
  }

  /** Overrides that can be written in the syntax: plain names, at least one dependency each, distinct keys. */
  predicate WellFormedOverrides(ovs: seq<DependencyOverride>)
  {
    (forall i :: 0 <= i < |ovs| ==> Token(ovs[i].key) && |ovs[i].deps| >= 1)
    && (forall i, j :: 0 <= i < |ovs| && 0 <= j < |ovs[i].deps| ==> Token(ovs[i].deps[j]))
    && (forall i, j :: 0 <= i < j < |ovs| ==> ovs[i].key != ovs[j].key)
  }

  /** `key:[a,b` (the group without its closing bracket, as the parser's first split leaves it). */
  function Piece(o: DependencyOverride): string
  {
    o.key + ":[" + Join(o.deps, ",")
  }

  function Pieces(ovs: seq<DependencyOverride>): (r: seq<string>)
    ensures |r| == |ovs|
    ensures forall i :: 0 <= i < |ovs| ==> r[i] == Piece(ovs[i])
  {
    seq(|ovs|, i requires 0 <= i < |ovs| => Piece(ovs[i]))
  }

  /** `key1:[a,b],key2:[c]`. */
  function Render(ovs: seq<DependencyOverride>): string
  {
    Join(seq(|ovs|, i requires 0 <= i < |ovs| => Piece(ovs[i]) + "]"), ",")
  }

  function KeysOf(ovs: seq<DependencyOverride>): set<string>
  {
    set i | 0 <= i < |ovs| :: ovs[i].key
  }

  /** An entry the rewriter can give dependencies to: a function or a record. */
  predicate Rewritable(entry: Value)
  {
    IsFunction(entry) || entry.Record?
  }

  /** What the rewriter makes of such an entry. */
  function Rewritten(entry: Value, deps: seq<string>): Value
    requires Rewritable(entry)
  {
    if IsFunction(entry) then Wrapped(deps) else Set(entry, "depends", Strings(deps))
  }

  lemma {:induction false} JoinAvoids(xs: seq<string>, sep: string, c: char)
    requires c !in sep && forall k :: 0 <= k < |xs| ==> c !in xs[k]
    ensures c !in Join(xs, sep)
  {
    if |xs| > 1 {
      JoinAvoids(xs[1..], sep, c);
    }
  }

  /** The key and the dependencies of a well-formed override hold neither `:` nor `]`. */
  lemma PieceAvoids(o: DependencyOverride, c: char)
    requires Token(o.key) && forall j :: 0 <= j < |o.deps| ==> Token(o.deps[j])
    requires c == ']' || c == ':'
    ensures c !in o.key && c !in Join(o.deps, ",")
    ensures c == ']' ==> c !in Piece(o)
  {
    forall k | 0 <= k < |o.deps| ensures c !in o.deps[k] {
      assert Token(o.deps[k]);
    }
    JoinAvoids(o.deps, ",", c);
  }

  /** Appending the comma closes the last group, so the string splits into the groups and one empty piece. */
  lemma {:induction false} RenderComma(ovs: seq<DependencyOverride>)
    requires |ovs| >= 1
    ensures Render(ovs) + "," == Join(Pieces(ovs) + [""], "],")
    decreases |ovs|
  {
    var closed := seq(|ovs|, i requires 0 <= i < |ovs| => Piece(ovs[i]) + "]");
    if |ovs| == 1 {
      assert closed == [Piece(ovs[0]) + "]"];
      assert Pieces(ovs) + [""] == [Piece(ovs[0]), ""];
    } else {
      var tail := ovs[1..];
      RenderComma(tail);
      var tailClosed := seq(|tail|, i requires 0 <= i < |tail| => Piece(tail[i]) + "]");
      assert closed[1..] == tailClosed;
      assert Render(ovs) == Piece(ovs[0]) + "]" + "," + Render(tail);
      assert (Pieces(ovs) + [""])[1..] == Pieces(tail) + [""];
      assert Join(Pieces(ovs) + [""], "],") == Piece(ovs[0]) + "]," + Join(Pieces(tail) + [""], "],");
    }
  }

  lemma {:induction false} NonEmptyDropsLast(xs: seq<string>)
    requires forall k :: 0 <= k < |xs| ==> xs[k] != ""
    ensures NonEmpty(xs + [""]) == xs
    decreases |xs|
  {
    var ys := xs + [""];
    if |xs| == 0 {
      assert ys[1..] == [];
    } else {
      var tail := xs[1..];
      assert ys[0] == xs[0] && xs[0] != "";
      assert ys[1..] == tail + [""];
      assert forall k :: 0 <= k < |tail| ==> tail[k] == xs[k + 1];
      NonEmptyDropsLast(tail);
      assert NonEmpty(ys) == [xs[0]] + NonEmpty(ys[1..]);
      assert xs == [xs[0]] + tail;
    }
  }

  /** Reading a rendered override string gives back one group per override, in order. */
  lemma ParseRendered(ovs: seq<DependencyOverride>)
    requires |ovs| >= 1 && WellFormedOverrides(ovs)
    ensures OverridePieces(Str(Render(ovs))) == Pieces(ovs)
  {
    RenderComma(ovs);
    var parts := Pieces(ovs) + [""];
    forall k | 0 <= k < |parts| ensures ']' !in parts[k] {
      if k < |ovs| {
        PieceAvoids(ovs[k], ']');
      }
    }
    SplitJoin(parts, "],");
    forall k | 0 <= k < |ovs| ensures Pieces(ovs)[k] != "" {
      assert Piece(ovs[k])[|ovs[k].key|] == ':';
    }
    NonEmptyDropsLast(Pieces(ovs));
  }

  /** One group is split back into its key and its dependency list. */
  lemma ParsePiece(o: DependencyOverride)
    requires Token(o.key) && |o.deps| >= 1 && forall j :: 0 <= j < |o.deps| ==> Token(o.deps[j])
    ensures Split(Piece(o), ":[") == [o.key, Join(o.deps, ",")]
    ensures Split(Join(o.deps, ","), ",") == o.deps
  {
    PieceAvoids(o, ':');
    SplitJoin([o.key, Join(o.deps, ",")], ":[");
    forall k | 0 <= k < |o.deps| ensures ',' !in o.deps[k] {
      assert Token(o.deps[k]);
    }
    SplitJoin(o.deps, ",");
  }

  /** One well-formed group rewrites exactly its key of a record `logic`. */
  lemma RewriteOnePiece(logic: Value, o: DependencyOverride)
    requires logic.Record? && Token(o.key) && |o.deps| >= 1
    requires forall j :: 0 <= j < |o.deps| ==> Token(o.deps[j])
    requires Rewritable(Get(logic, o.key))
    ensures RewriteOne(logic, Piece(o)) == Rewrite(Set(logic, o.key, Rewritten(Get(logic, o.key), o.deps)), None)
  {
    ParsePiece(o);
  }

  /** Applying the groups of well-formed overrides in order, on a record whose targeted entries are all rewritable. */
  lemma {:induction false} RewriteGroups(logic: Value, ovs: seq<DependencyOverride>)
    requires logic.Record? && WellFormedOverrides(ovs)
    requires forall i :: 0 <= i < |ovs| ==> Rewritable(Get(logic, ovs[i].key))
    ensures var r := RewriteAll(logic, Pieces(ovs));
      && r.failure == None && r.logic.Record?
      && (forall i :: 0 <= i < |ovs| ==> Get(r.logic, ovs[i].key) == Rewritten(Get(logic, ovs[i].key), ovs[i].deps))
      && (forall k :: k !in KeysOf(ovs) ==> Get(r.logic, k) == Get(logic, k))
    decreases |ovs|
  {
    if |ovs| > 0 {
      var n := |ovs| - 1;
      var init := ovs[..n];
      assert WellFormedOverrides(init);
      RewriteGroups(logic, init);
      var pieces := Pieces(ovs);
      assert pieces[..n] == Pieces(init);
      RewriteAllStep(logic, pieces, n);
      assert pieces[..n + 1] == pieces;
      var done := RewriteAll(logic, Pieces(init));
      var o := ovs[n];
      assert o.key !in KeysOf(init) by {
        forall i | 0 <= i < n ensures init[i].key != o.key {
          assert ovs[i].key != ovs[n].key;
        }
      }
      assert Get(done.logic, o.key) == Get(logic, o.key);
      RewriteOnePiece(done.logic, o);
      var r := RewriteAll(logic, pieces);
      assert r == RewriteOne(done.logic, Piece(o));
      assert r.logic == Set(done.logic, o.key, Rewritten(Get(logic, o.key), o.deps));
      RewriteGroupsLast(logic, ovs, init, done.logic);
    }
  }

  /** The last group's write, on top of what the earlier groups rewrote. */
  lemma RewriteGroupsLast(logic: Value, ovs: seq<DependencyOverride>, init: seq<DependencyOverride>, done: Value)
    requires |ovs| > 0 && init == ovs[..|ovs| - 1]
    requires WellFormedOverrides(ovs) && logic.Record? && done.Record?
    requires forall i :: 0 <= i < |ovs| ==> Rewritable(Get(logic, ovs[i].key))
    requires forall i :: 0 <= i < |init| ==> Get(done, init[i].key) == Rewritten(Get(logic, init[i].key), init[i].deps)
    requires forall k :: k !in KeysOf(init) ==> Get(done, k) == Get(logic, k)
    ensures var o := ovs[|ovs| - 1];
      var r := Set(done, o.key, Rewritten(Get(logic, o.key), o.deps));
      && (forall i :: 0 <= i < |ovs| ==> Get(r, ovs[i].key) == Rewritten(Get(logic, ovs[i].key), ovs[i].deps))
      && (forall k :: k !in KeysOf(ovs) ==> Get(r, k) == Get(logic, k))
  {
    var n := |ovs| - 1;
    var o := ovs[n];
    var r := Set(done, o.key, Rewritten(Get(logic, o.key), o.deps));
    assert o.key !in KeysOf(init) by {
      forall i | 0 <= i < n ensures init[i].key != o.key {
        assert ovs[i].key != ovs[n].key;
      }
    }
    forall i | 0 <= i < |ovs|
      ensures Get(r, ovs[i].key) == Rewritten(Get(logic, ovs[i].key), ovs[i].deps)
    {
      if i < n {
        assert ovs[i] == init[i] && ovs[i].key != o.key;
      }
    }
    forall k | k !in KeysOf(ovs) ensures Get(r, k) == Get(logic, k) {
      assert k != o.key;
      assert k !in KeysOf(init) by {
        forall i | 0 <= i < n ensures init[i].key != k {
          assert init[i] == ovs[i];
        }
      }
    }
  }

  /**
   * An override string `k1:[a,b],k2:[c]` sets each named entry's dependencies to
   * its list: a function entry becomes `{action, depends}` (with an action that
   * does not call it), a record keeps its action and gets the new `depends`;
   * every other entry is left alone.
   */
  lemma OverrideRoundTrip(logic: Value, ovs: seq<DependencyOverride>)
    requires logic.Record? && |ovs| >= 1 && WellFormedOverrides(ovs)
    requires forall i :: 0 <= i < |ovs| ==> Rewritable(Get(logic, ovs[i].key))
    ensures var r := RewriteAll(logic, OverridePieces(Str(Render(ovs))));
      && r.failure == None && r.logic.Record?
      && (forall i :: 0 <= i < |ovs| ==> Get(r.logic, ovs[i].key) == Rewritten(Get(logic, ovs[i].key), ovs[i].deps))
      && (forall k :: k !in KeysOf(ovs) ==> Get(r.logic, k) == Get(logic, k))
  {
    var pieces := OverridePieces(Str(Render(ovs)));
    ParseRendered(ovs);
    assert pieces == Pieces(ovs);
    RewriteGroups(logic, ovs);
  }

  /**
   * Overriding an entry `logic` does not have (it reads as `undefined` or
   * `null`, as every key but `length` and the indices does on a string body)
   * fails with "Invalid dependency override", changing nothing.
   */
  lemma OverrideOfAbsentKey(logic: Value, o: DependencyOverride)
    requires !IsNil(logic) && Token(o.key) && |o.deps| >= 1
    requires forall j :: 0 <= j < |o.deps| ==> Token(o.deps[j])
    requires IsNil(Get(logic, o.key))
    ensures RewriteAll(logic, OverridePieces(Str(Render([o]))))
         == Rewrite(logic, Some(Mixin(InvalidDependencyOverride(o.key))))
  {
    ParseRendered([o]);
    ParsePiece(o);
    assert Pieces([o]) == [Piece(o)];
    assert Pieces([o])[..0] == [];
  }
}
