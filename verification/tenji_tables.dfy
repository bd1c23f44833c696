/**
 * The braille lookup tables of TenjiTexter. The module-level dictionaries
 * j01..j12, i01..i03 and e01..e03 map one or two braille cells to kana,
 * Latin or punctuation text. They are built by inverting the dictionaries of
 * Japanese_Table, Info_Table and English_Table (text -> cells), which are
 * not part of this model: the converters take the inverted tables as a
 * parameter, and the inversion itself is `Invert` below.
 */
module TenjiTables {

  type Table = map<string, string>

  /** The inverted tables the converters read, plus the NABCC glyph table. */
  datatype Tables = Tables(
    j01: Table, j02: Table, j03: Table, j04: Table, j05: Table, j06: Table,
    j07: Table, j08: Table, j09: Table, j10: Table, j11: Table, j12: Table,
    i01: Table, i02: Table, i03: Table,
    e01: Table, e02: Table, e03: Table,
    nabcc: map<char, string>)

  /**
   * `OrderedDict([(v, k) for k, v in table.items()])` over the items of a
   * dictionary in order: every value becomes a key, and when two items share
   * a value the later one wins.
   */
  function Invert(items: seq<(string, string)>): (m: Table)
    ensures m.Keys == set i | 0 <= i < |items| :: items[i].1
  {
    if items == [] then map[]
    else
      var init := items[..|items| - 1];
      var last := items[|items| - 1];
      var m := Invert(init)[last.1 := last.0];
      assert forall i :: 0 <= i < |init| ==> init[i] == items[i];
      m
  }

  /** The inverted table maps each value to the key of its last item. */
  lemma {:induction false} InvertLastWins(items: seq<(string, string)>, i: nat)
    requires i < |items|
    requires forall j :: i < j < |items| ==> items[j].1 != items[i].1
    ensures Invert(items)[items[i].1] == items[i].0
  {
    var init := items[..|items| - 1];
    if i < |items| - 1 {
      assert init[i] == items[i];
      InvertLastWins(init, i);
    }
  }

  /** When no two items share a value, inverting keeps every item. */
  lemma InvertInjective(items: seq<(string, string)>)
    requires forall i, j :: 0 <= i < j < |items| ==> items[i].1 != items[j].1
    ensures forall i :: 0 <= i < |items| ==> Invert(items)[items[i].1] == items[i].0
  {
    forall i | 0 <= i < |items| ensures Invert(items)[items[i].1] == items[i].0 {
      InvertLastWins(items, i);
    }
  }
}
