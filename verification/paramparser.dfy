/** `parse_input`: the `key=value;key=value` text each tool receives,
    decoded into a dictionary the way bot.py does it. */
module ParamParser {
  import opened Prelude
  import opened PyText
  import opened PyInt
  import opened PyErrors

  /** The decoded dictionary of parameters. */
  type Params = map<string, string>

  /** The pieces that contain `=`, in their original order. */
  function Keep(pieces: seq<string>): (kept: seq<string>)
    ensures forall i :: 0 <= i < |kept| ==> '=' in kept[i]
    ensures forall p :: p in kept <==> p in pieces && '=' in p
    ensures |kept| <= |pieces|
    decreases |pieces|
  {
    if |pieces| == 0 then []
    else (if '=' in pieces[0] then [pieces[0]] else []) + Keep(pieces[1..])
  }

  /** Keeping distributes over concatenation, so the kept pieces stay in
      their original order: together with the bound on `Keep`'s length,
      this fixes `Keep` of every sequence. */
  lemma {:induction false} KeepAppend(a: seq<string>, b: seq<string>)
    ensures Keep(a + b) == Keep(a) + Keep(b)
    decreases |a|
  {
    if |a| > 0 {
      assert (a + b)[1..] == a[1..] + b;
      KeepAppend(a[1..], b);
    } else {
      assert a + b == b;
    }
  }

  /** Keeping twice keeps the same pieces as keeping once. */
  lemma {:induction false} KeepIdempotent(pieces: seq<string>)
    ensures Keep(Keep(pieces)) == Keep(pieces)
    decreases |pieces|
  {
    if |pieces| > 0 {
      KeepIdempotent(pieces[1..]);
      var kept := Keep(pieces);
      if '=' in pieces[0] {
        assert kept == [pieces[0]] + Keep(pieces[1..]);
        assert kept[1..] == Keep(pieces[1..]);
      } else {
        assert kept == Keep(pieces[1..]);
      }
    }
  }

  /** The `;`-separated pieces of the input that take part in the dictionary. */
  function KeptPieces(input: string): seq<string> {
    Keep(Split(input, ';'))
  }

  /** Each kept piece split on every `=`. */
  function Pairs(kept: seq<string>): (pairs: seq<seq<string>>)
    ensures |pairs| == |kept|
  {
    seq(|kept|, i requires 0 <= i < |kept| => Split(kept[i], '='))
  }

  /** The key an element of `dict()`'s argument contributes: its first part. */
  function KeyOf(pair: seq<string>): string {
    if |pair| > 0 then pair[0] else ""
  }

  /** The text of a piece before its first `=`. */
  function PieceKey(piece: string): string {
    KeyOf(Split(piece, '='))
  }

  /** `dict(pairs)`: every element must have exactly two parts, and the
      first one that does not raises; a later key overwrites an earlier one. */
  function BuildDict(pairs: seq<seq<string>>): (r: Result<Params, Exception>)
    ensures r.Success? <==> forall i :: 0 <= i < |pairs| ==> |pairs[i]| == 2
    ensures r.Failure? ==>
      && r.error.DictUpdateLength?
      && r.error.index < |pairs|
      && |pairs[r.error.index]| != 2
      && r.error.length == |pairs[r.error.index]|
      && forall j :: 0 <= j < r.error.index ==> |pairs[j]| == 2
    decreases |pairs|
  {
    if |pairs| == 0 then Success(map[])
    else
      var n := |pairs| - 1;
      var prev := BuildDict(pairs[..n]);
      if prev.Failure? then prev
      else if |pairs[n]| != 2 then Failure(DictUpdateLength(n, |pairs[n]|))
      else Success(prev.value[pairs[n][0] := pairs[n][1]])
  }

  /** The keys of `dict(pairs)` are the first parts of the pairs. */
  lemma {:induction false} BuildDictKeys(pairs: seq<seq<string>>)
    requires BuildDict(pairs).Success?
    ensures forall k :: k in BuildDict(pairs).value <==>
      exists i :: 0 <= i < |pairs| && KeyOf(pairs[i]) == k
    decreases |pairs|
  {
    if |pairs| > 0 {
      var n := |pairs| - 1;
      var init := pairs[..n];
      BuildDictKeys(init);
      var m := BuildDict(pairs).value;
      forall k ensures k in m <==> exists i :: 0 <= i < |pairs| && KeyOf(pairs[i]) == k {
        if k in m && k != KeyOf(pairs[n]) {
          var i :| 0 <= i < |init| && KeyOf(init[i]) == k;
          assert pairs[i] == init[i];
        }
        if exists i :: 0 <= i < |pairs| && KeyOf(pairs[i]) == k {
          var i :| 0 <= i < |pairs| && KeyOf(pairs[i]) == k;
          if i < n {
            assert init[i] == pairs[i];
          }
        }
      }
    }
  }

  /** In `dict(pairs)` a key maps to the second part of the last pair
      that carries it. */
  lemma {:induction false} BuildDictLastWins(pairs: seq<seq<string>>, i: int)
    requires BuildDict(pairs).Success?
    requires 0 <= i < |pairs|
    requires forall j :: i < j < |pairs| ==> KeyOf(pairs[j]) != KeyOf(pairs[i])
    ensures KeyOf(pairs[i]) in BuildDict(pairs).value
    ensures BuildDict(pairs).value[KeyOf(pairs[i])] == pairs[i][1]
    decreases |pairs|
  {
    var n := |pairs| - 1;
    if i < n {
      var init := pairs[..n];
      assert init[i] == pairs[i];
      forall j | i < j < |init| ensures KeyOf(init[j]) != KeyOf(init[i]) {
        assert init[j] == pairs[j];
      }
      BuildDictLastWins(init, i);
    }
  }

  /** Each kept piece gives a list one longer than its count of `=`. */
  lemma PairsShape(kept: seq<string>)
    requires forall i :: 0 <= i < |kept| ==> '=' in kept[i]
    ensures forall i :: 0 <= i < |kept| ==>
      && Pairs(kept)[i] == Split(kept[i], '=')
      && Count(kept[i], '=') >= 1
      && |Pairs(kept)[i]| == Count(kept[i], '=') + 1
      && KeyOf(Pairs(kept)[i]) == PieceKey(kept[i])
  {
  }

  /** `parse_input(input)`: the pieces without `=` do not matter; a kept
      piece with more than one `=` makes `dict()` raise, naming the first
      such piece among the kept ones. */
  function ParseInput(input: string): (r: Result<Params, Exception>)
    ensures r.Failure? <==>
      exists i :: 0 <= i < |KeptPieces(input)| && Count(KeptPieces(input)[i], '=') >= 2
    ensures r.Failure? ==>
      && r.error.DictUpdateLength?
      && r.error.index < |KeptPieces(input)|
      && Count(KeptPieces(input)[r.error.index], '=') >= 2
      && r.error.length == Count(KeptPieces(input)[r.error.index], '=') + 1
      && forall j :: 0 <= j < r.error.index ==> Count(KeptPieces(input)[j], '=') == 1
  {
    PairsShape(KeptPieces(input));
    BuildDict(Pairs(KeptPieces(input)))
  }

  /** The keys `parse_input` returns are the keys of the kept pieces. */
  lemma ParseInputKeys(input: string)
    requires ParseInput(input).Success?
    ensures forall k :: k in ParseInput(input).value <==>
      exists i :: 0 <= i < |KeptPieces(input)| && PieceKey(KeptPieces(input)[i]) == k
  {
    var kept := KeptPieces(input);
    PairsShape(kept);
    BuildDictKeys(Pairs(kept));
  }

  /** When a key repeats, the last kept piece carrying it gives its value:
      that piece is exactly the key, `=`, and the stored value. */
  lemma LastOccurrenceWins(input: string, i: int)
    requires ParseInput(input).Success?
    requires 0 <= i < |KeptPieces(input)|
    requires forall j :: i < j < |KeptPieces(input)| ==>
      PieceKey(KeptPieces(input)[j]) != PieceKey(KeptPieces(input)[i])
    ensures PieceKey(KeptPieces(input)[i]) in ParseInput(input).value
    ensures KeptPieces(input)[i] ==
      PieceKey(KeptPieces(input)[i]) + "=" + ParseInput(input).value[PieceKey(KeptPieces(input)[i])]
  {
    var kept := KeptPieces(input);
    var pairs := Pairs(kept);
    PairsShape(kept);
    assert ParseInput(input) == BuildDict(pairs);
    forall j | i < j < |pairs| ensures KeyOf(pairs[j]) != KeyOf(pairs[i]) {
      assert KeyOf(pairs[j]) == PieceKey(kept[j]);
    }
    BuildDictLastWins(pairs, i);
    var piece := kept[i];
    var parts := Split(piece, '=');
    assert parts == pairs[i] && |parts| == 2;
    JoinSplit(piece, '=');
    assert Join("=", parts) == parts[0] + "=" + parts[1];
  }

  /** Pieces without `=` are ignored: dropping them from the input does
      not change what `parse_input` returns. */
  lemma IgnoresPiecesWithoutEquals(pieces: seq<string>)
    requires |pieces| > 0
    requires forall i :: 0 <= i < |pieces| ==> ';' !in pieces[i]
    ensures ParseInput(Join(";", pieces)) == ParseInput(Join(";", Keep(pieces)))
  {
    var kept := Keep(pieces);
    SplitJoin(pieces, ';');
    assert KeptPieces(Join(";", pieces)) == kept;
    if |kept| == 0 {
      assert Split("", ';') == [""];
      assert KeptPieces(Join(";", kept)) == [];
    } else {
      forall i | 0 <= i < |kept| ensures ';' !in kept[i] {
        assert kept[i] in pieces;
        var j :| 0 <= j < |pieces| && pieces[j] == kept[i];
      }
      SplitJoin(kept, ';');
      KeepIdempotent(pieces);
      assert KeptPieces(Join(";", kept)) == kept;
    }
  }

  /** Keeping pieces that all contain `=` keeps them all. */
  lemma {:induction false} KeepAll(pieces: seq<string>)
    requires forall i :: 0 <= i < |pieces| ==> '=' in pieces[i]
    ensures Keep(pieces) == pieces
    decreases |pieces|
  {
    if |pieces| > 0 {
      KeepAll(pieces[1..]);
      assert [pieces[0]] + pieces[1..] == pieces;
    }
  }

  /** The `key=value` pieces of a list of entries. */
  function EntryPieces(entries: seq<(string, string)>): (pieces: seq<string>)
    ensures |pieces| == |entries|
  {
    seq(|entries|, i requires 0 <= i < |entries| => entries[i].0 + "=" + entries[i].1)
  }

  /** A list of entries written the way the tools expect their input:
      `key=value` pieces joined with `;`. */
  function EncodeParams(entries: seq<(string, string)>): string {
    Join(";", EntryPieces(entries))
  }

  /** The dictionary the entries describe, later entries overriding
      earlier ones with the same key. */
  function DictOf(entries: seq<(string, string)>): Params
    decreases |entries|
  {
    if |entries| == 0 then map[]
    else
      var last := entries[|entries| - 1];
      DictOf(entries[..|entries| - 1])[last.0 := last.1]
  }

  /** No key or value contains `;` or `=`. */
  predicate PlainEntries(entries: seq<(string, string)>) {
    forall i :: 0 <= i < |entries| ==>
      && ';' !in entries[i].0 && '=' !in entries[i].0
      && ';' !in entries[i].1 && '=' !in entries[i].1
  }

  /** `dict()` of two-part lists built from entries is the entries' dictionary. */
  lemma {:induction false} BuildDictOfEntries(entries: seq<(string, string)>, pairs: seq<seq<string>>)
    requires |pairs| == |entries|
    requires forall i :: 0 <= i < |entries| ==> pairs[i] == [entries[i].0, entries[i].1]
    ensures BuildDict(pairs) == Success(DictOf(entries))
    decreases |entries|
  {
    if |entries| > 0 {
      var n := |entries| - 1;
      BuildDictOfEntries(entries[..n], pairs[..n]);
    }
  }

  /** Every piece of a non-empty encoded list is kept, in order. */
  lemma EncodedPiecesKept(entries: seq<(string, string)>)
    requires PlainEntries(entries) && |entries| > 0
    ensures KeptPieces(EncodeParams(entries)) == EntryPieces(entries)
  {
    var pieces := EntryPieces(entries);
    forall i | 0 <= i < |pieces| ensures ';' !in pieces[i] && '=' in pieces[i] {
      assert pieces[i] == entries[i].0 + "=" + entries[i].1;
      assert pieces[i][|entries[i].0|] == '=';
    }
    SplitJoin(pieces, ';');
    KeepAll(pieces);
  }

  /** Each encoded piece splits back into its key and value. */
  lemma EntryPairs(entries: seq<(string, string)>)
    requires PlainEntries(entries)
    ensures forall i :: 0 <= i < |entries| ==>
      Pairs(EntryPieces(entries))[i] == [entries[i].0, entries[i].1]
  {
    var pieces := EntryPieces(entries);
    var pairs := Pairs(pieces);
    forall i | 0 <= i < |entries| ensures pairs[i] == [entries[i].0, entries[i].1] {
      var k := entries[i].0;
      var v := entries[i].1;
      assert pieces[i] == k + ['='] + v;
      SplitAfterPiece(k, '=', v);
      SplitWithoutSeparator(v, '=');
    }
  }

  /** Decoding an encoded list of plain entries gives their dictionary:
      `parse_input` inverts the encoding, with the last value of a
      repeated key winning. */
  lemma ParseEncoded(entries: seq<(string, string)>)
    requires PlainEntries(entries)
    ensures ParseInput(EncodeParams(entries)) == Success(DictOf(entries))
  {
    var input := EncodeParams(entries);
    if |entries| == 0 {
      assert input == "";
      assert Split("", ';') == [""];
      assert KeptPieces(input) == [];
      assert Pairs([]) == [];
    } else {
      EncodedPiecesKept(entries);
      EntryPairs(entries);
      var pairs := Pairs(EntryPieces(entries));
      assert ParseInput(input) == BuildDict(pairs);
      BuildDictOfEntries(entries, pairs);
    }
  }

  /** `params.get(key)`. */
  function Get(params: Params, key: string): Option<string> {
    if key in params then Some(params[key]) else None
  }

  /** `int(params.get(key, default))`: the default is already an integer;
      a present value goes through `int()`, which may raise. */
  function IntParam(params: Params, key: string, default: int): (r: Result<int, Exception>)
    ensures key !in params ==> r == Success(default)
    ensures key in params ==>
      && (r.Success? <==> ParseInt(params[key]).Some?)
      && (r.Success? ==> ParseInt(params[key]) == Some(r.value))
      && (r.Failure? ==> r.error == InvalidIntLiteral(params[key]))
  {
    if key !in params then Success(default)
    else
      match ParseInt(params[key])
      case Some(n) => Success(n)
      case None => Failure(InvalidIntLiteral(params[key]))
  }

  /** A parameter written as `str(n)` reads back as `n`. */
  lemma IntParamReadsRenderedInt(params: Params, key: string, default: int, n: int)
    requires key in params && params[key] == IntToString(n)
    ensures IntParam(params, key, default) == Success(n)
  {
    ParseIntRoundTrip(n);
  }
}
