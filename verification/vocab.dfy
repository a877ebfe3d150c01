/** The fixed filter vocabularies of `core/__init__.py` and the comma-joined
    selections the search algorithms build from them. */
module Vocab {
  import Strings
  import Convert

  /** `LAYERS`, as written: the sixth entry carries a trailing tab. */
  const Layers: seq<string> := [
    "venue", "address", "street", "neighbourhood", "borough", "localadmin\t",
    "locality", "county", "macrocounty", "region", "macroregion", "country", "coarse"
  ]

  /** `SOURCES` */
  const Sources: seq<string> := ["osm", "oa", "wof", "gn"]

  /** Entries are non-empty, pairwise distinct and free of ','. */
  predicate Separable(vocab: seq<string>)
  {
    && (forall i :: 0 <= i < |vocab| ==> |vocab[i]| > 0 && ',' !in vocab[i])
    && (forall i, j :: 0 <= i < j < |vocab| ==> vocab[i] != vocab[j])
  }

  lemma VocabularyContents()
    ensures |Layers| == 13 && |Sources| == 4
    ensures Layers[5] == "localadmin\t" && Layers[5] != "localadmin"
    ensures Sources == ["osm", "oa", "wof", "gn"]
  {
  }

  /** Length, first and last character: enough to tell the entries apart. */
  function Signature(s: string): (int, char, char)
  {
    if |s| == 0 then (0, ' ', ' ') else (|s|, s[0], s[|s| - 1])
  }

  lemma LayersSeparable()
    ensures Separable(Layers)
  {
    assert forall i :: 0 <= i < |Layers| ==> |Layers[i]| > 0 && ',' !in Layers[i];
    assert forall i, j :: 0 <= i < j < |Layers| ==> Signature(Layers[i]) != Signature(Layers[j]);
  }

  lemma SourcesSeparable()
    ensures Separable(Sources)
  {
  }

  predicate ValidIndices(vocab: seq<string>, idx: seq<nat>)
  {
    forall i :: 0 <= i < |idx| ==> idx[i] < |vocab|
  }

  /** `[vocab[idx] for idx in selection]` */
  function Select(vocab: seq<string>, idx: seq<nat>): (r: seq<string>)
    requires ValidIndices(vocab, idx)
    ensures |r| == |idx|
    ensures forall i :: 0 <= i < |idx| ==> r[i] == vocab[idx[i]]
  {
    seq(|idx|, i requires 0 <= i < |idx| => vocab[idx[i]])
  }

  /** The `layers` / `sources` parameter value for a selection. */
  function SelectionParam(vocab: seq<string>, idx: seq<nat>): string
    requires ValidIndices(vocab, idx)
  {
    Convert.CommaJoin(Select(vocab, idx))
  }

  /** Over a separable vocabulary the parameter determines the selection: two
      selections giving the same text are the same index list. */
  lemma SelectionDeterminesIndices(vocab: seq<string>, a: seq<nat>, b: seq<nat>)
    requires Separable(vocab) && ValidIndices(vocab, a) && ValidIndices(vocab, b)
    requires SelectionParam(vocab, a) == SelectionParam(vocab, b)
    ensures a == b
  {
    var sa, sb := Select(vocab, a), Select(vocab, b);
    if |a| > 0 {
      Strings.JoinStartsWithFirst(sa, ",");
    }
    if |b| > 0 {
      Strings.JoinStartsWithFirst(sb, ",");
    }
    if |a| > 0 && |b| > 0 {
      Strings.SplitJoin(sa, ',');
      Strings.SplitJoin(sb, ',');
      assert sa == sb;
      forall i | 0 <= i < |a|
        ensures a[i] == b[i]
      {
        assert vocab[a[i]] == vocab[b[i]];
      }
    }
  }

  /** The parameter splits back into the selected names, in order. */
  lemma SelectionSplits(vocab: seq<string>, idx: seq<nat>)
    requires Separable(vocab) && ValidIndices(vocab, idx) && |idx| > 0
    ensures Strings.Split(SelectionParam(vocab, idx), ',') == Select(vocab, idx)
  {
    Strings.SplitJoin(Select(vocab, idx), ',');
  }

  /** No entry has the ten characters of "localadmin". */
  lemma LayersLackPlainLocaladmin()
    ensures forall j :: 0 <= j < |Layers| ==> |Layers[j]| != 10
  {
  }

  /** Selecting "localadmin" sends the tab along: the parameter holds the
      entry "localadmin\t", never "localadmin". */
  lemma LocaladminCarriesTab(idx: seq<nat>)
    requires ValidIndices(Layers, idx) && 5 in idx
    ensures "localadmin\t" in Strings.Split(SelectionParam(Layers, idx), ',')
    ensures "localadmin" !in Strings.Split(SelectionParam(Layers, idx), ',')
  {
    var sel := Select(Layers, idx);
    assert Strings.Split(SelectionParam(Layers, idx), ',') == sel by {
      LayersSeparable();
      SelectionSplits(Layers, idx);
    }
    assert "localadmin\t" in sel by {
      var k :| 0 <= k < |idx| && idx[k] == 5;
      assert sel[k] == Layers[5];
    }
    assert "localadmin" !in sel by {
      LayersLackPlainLocaladmin();
      forall j | 0 <= j < |sel| ensures sel[j] != "localadmin" {
        assert sel[j] == Layers[idx[j]];
      }
    }
  }
}
