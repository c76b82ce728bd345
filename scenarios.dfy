/**
 * Worked examples of the group-selection pipeline on small tables: a
 * column whose cells combine groups with commas, and what the group
 * resolution then finds.
 */
module Scenarios {
  import opened PyStrings
  import opened DataFrames
  import opened App

  const TypeColumn: string := "ATTRIBUTE_type"

  /** Metadata of three files typed "case", "control,case" and "control". */
  function TypedMetadata(): Table
  {
    Table([FilenameColumn, TypeColumn], [
      map[FilenameColumn := Some("a.mzML"), TypeColumn := Some("case")],
      map[FilenameColumn := Some("b.mzML"), TypeColumn := Some("control,case")],
      map[FilenameColumn := Some("c.mzML"), TypeColumn := Some("control")]
    ])
  }

  /** The type cells of the three files, all non-null and distinct. */
  lemma TypedMetadataCells()
    ensures NonNullCells(TypedMetadata(), TypeColumn) == {"case", "control,case", "control"}
  {
    var t := TypedMetadata();
    assert Cell(t.rows[0], TypeColumn) == Some("case");
    assert Cell(t.rows[1], TypeColumn) == Some("control,case");
    assert Cell(t.rows[2], TypeColumn) == Some("control");
  }

  /** A word without commas splits into itself. */
  lemma SplitWord(w: string)
    requires ',' !in w
    ensures Split(w, ',') == [w]
  {
    SplitOfJoin([w], ',');
  }

  /** Two comma-free words joined by a comma split back into the two words. */
  lemma SplitPair(a: string, b: string)
    requires ',' !in a && ',' !in b
    ensures Split(a + "," + b, ',') == [a, b]
  {
    SplitOfJoin([a, b], ',');
    assert Join([a, b], ',') == a + [','] + Join([b], ',');
  }

  /** How the three type cells split on commas. */
  lemma TypedMetadataSplits()
    ensures Split("case", ',') == ["case"]
    ensures Split("control", ',') == ["control"]
    ensures Split("control,case", ',') == ["control", "case"]
  {
    SplitWord("case");
    SplitWord("control");
    assert "control,case" == "control" + "," + "case";
    SplitPair("control", "case");
  }

  /** The pieces of three cells are the elements of their three splits. */
  lemma PiecesOfThree(a: string, b: string, c: string, pa: seq<string>, pb: seq<string>, pc: seq<string>)
    requires Split(a, ',') == pa && Split(b, ',') == pb && Split(c, ',') == pc
    ensures PiecesOf({a, b, c}) == (set x | x in pa + pb + pc)
  {
    forall x | x in pa + pb + pc
      ensures x in PiecesOf({a, b, c})
    {
      if x in pa {
        assert a in {a, b, c} && x in Split(a, ',');
      } else if x in pb {
        assert b in {a, b, c} && x in Split(b, ',');
      } else {
        assert c in {a, b, c} && x in Split(c, ',');
      }
    }
  }

  /** The pieces of the three type cells, with repetitions, in cell order. */
  lemma TypedMetadataPieces()
    ensures PiecesOf({"case", "control,case", "control"}) ==
      (set x | x in ["case"] + ["control", "case"] + ["control"])
  {
    TypedMetadataSplits();
    PiecesOfThree("case", "control,case", "control", ["case"], ["control", "case"], ["control"]);
  }

  /** The distinct pieces are the two groups. */
  lemma DistinctTypedPieces()
    ensures (set x | x in ["case"] + ["control", "case"] + ["control"]) == {"case", "control"}
  {
    assert ["case"] + ["control", "case"] + ["control"] == ["case", "control", "case", "control"];
  }

  /** The comma-combined cell contributes both of its groups, and nothing else. */
  lemma TypedMetadataTerms()
    ensures TermSet(TypedMetadata(), TypeColumn) == {"case", "control"}
  {
    TypedMetadataCells();
    TypedMetadataPieces();
    DistinctTypedPieces();
  }

  /** Metadata in which "case" only ever occurs combined with "control". */
  function CombinedMetadata(): Table
  {
    Table([FilenameColumn, TypeColumn], [
      map[FilenameColumn := Some("b.mzML"), TypeColumn := Some("control,case")],
      map[FilenameColumn := Some("c.mzML"), TypeColumn := Some("control")]
    ])
  }

  /** "case" is a term of the combined metadata. */
  lemma CombinedTermOffered()
    ensures "case" in TermSet(CombinedMetadata(), TypeColumn)
  {
    var t := CombinedMetadata();
    assert Cell(t.rows[0], TypeColumn) == Some("control,case");
    TypedMetadataSplits();
    assert "case" in Split("control,case", ',');
    assert "control,case" in NonNullCells(t, TypeColumn);
  }

  /** Every row of the combined metadata has a cell under both columns. */
  lemma CombinedRectangular()
    ensures Rectangular(CombinedMetadata())
  {
    var t := CombinedMetadata();
    assert forall c :: c in t.columns ==> c == FilenameColumn || c == TypeColumn;
  }

  /** No type cell of the combined metadata is exactly "case". */
  lemma CombinedCellsNotCase()
    ensures forall i :: 0 <= i < |CombinedMetadata().rows| ==> Cell(CombinedMetadata().rows[i], TypeColumn) != Some("case")
  {
    var t := CombinedMetadata();
    assert Cell(t.rows[0], TypeColumn) == Some("control,case");
    assert Cell(t.rows[1], TypeColumn) == Some("control");
    assert |"control,case"| != |"case"| && |"control"| != |"case"|;
  }

  /** No row of the combined metadata holds exactly "case", so its group is empty. */
  lemma CombinedGroupEmpty(task: string, filesummary: Table)
    requires GroupUsis(task, TypeColumn, "case", CombinedMetadata(), filesummary).Success?
    ensures GroupUsis(task, TypeColumn, "case", CombinedMetadata(), filesummary).value == []
  {
    CombinedRectangular();
    CombinedCellsNotCase();
    GroupNeedsExactCell(task, TypeColumn, "case", CombinedMetadata(), filesummary);
  }

  /**
   * A selected feature of precursor mass 500.25 and mean retention time 3.0
   * adds `xicmz` and the window from 2.0 to 4.0; with no selection only the
   * two USI lists are sent, even when both are empty.
   */
  method LinkExamples()
  {
    var feature: FeatureRow := map["precursor mass" := 500.25, "RTMean" := 3.0];
    var selected := BuildParams("u1", "u2", [feature], [0]);
    assert selected.Success?;
    assert Lookup(selected.value, "xicmz") == Some(Number(500.25));
    assert Lookup(selected.value, "xic_rt_window") == Some(RtWindow(2.0, 4.0));
    var plain := BuildParams("", "", [feature], []);
    assert plain.Success? && Keys(plain.value) == ["usi", "usi2"];
    assert Lookup(plain.value, "usi") == Some(Text(""));
  }
}
