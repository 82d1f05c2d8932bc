/**
 * The carbon table and the impact estimator of waste_logger_app/carbon_utils.py.
 * The table is the already-loaded CSV (`load_carbon_table` only reads a file); it is
 * passed in as a value, as the estimator receives it.
 */
module Carbon {
  import opened Common

  /** One row of the carbon table: columns label, material, recyclable, co2_kg. */
  datatype Row = Row(itemLabel: string, material: string, recyclable: bool, co2Kg: real)

  /** The (material, recyclable, co2_kg) triple returned by `estimate_impact`. */
  datatype Impact = Impact(material: string, recyclable: bool, co2Kg: real)

  /** The dictionary built by `get_item_data`, with its three keys as fields. */
  datatype ItemData = ItemData(material: string, recyclable: bool, co2Kg: real)

  /** The triple returned when no row carries the label. */
  const Fallback := Impact("unknown", false, 0.05)

  function ImpactOf(row: Row): Impact {
    Impact(row.material, row.recyclable, row.co2Kg)
  }

  /** `i` is the first row of `table` whose label equals `itemLabel`. */
  ghost predicate IsFirstMatch(table: seq<Row>, itemLabel: string, i: nat) {
    i < |table| && table[i].itemLabel == itemLabel &&
    forall j :: 0 <= j < i ==> table[j].itemLabel != itemLabel
  }

  /**
   * Position of the first row whose label equals `itemLabel` exactly: row 0 of the
   * filtered frame `carbon_df[carbon_df["label"] == label]`.
   */
  function FirstMatch(table: seq<Row>, itemLabel: string): (r: Option<nat>)
    ensures r.None? <==> forall j :: 0 <= j < |table| ==> table[j].itemLabel != itemLabel
    ensures r.Some? ==> IsFirstMatch(table, itemLabel, r.value)
  {
    if table == [] then None
    else if table[0].itemLabel == itemLabel then Some(0)
    else match FirstMatch(table[1..], itemLabel)
      case None => None
      case Some(k) => Some(k + 1)
  }

  /** `estimate_impact(label, carbon_df)`: first exact match wins; otherwise the fallback. */
  function EstimateImpact(itemLabel: string, table: seq<Row>): (r: Impact)
    ensures (forall j :: 0 <= j < |table| ==> table[j].itemLabel != itemLabel) ==> r == Fallback
    ensures forall i: nat :: IsFirstMatch(table, itemLabel, i) ==> r == ImpactOf(table[i])
  {
    match FirstMatch(table, itemLabel)
    case None => Fallback
    case Some(i) => ImpactOf(table[i])
  }

  /** `get_item_data`, with the table it loads passed in. */
  function GetItemData(table: seq<Row>, itemLabel: string): (r: ItemData)
    ensures var e := EstimateImpact(itemLabel, table);
      r.material == e.material && r.recyclable == e.recyclable && r.co2Kg == e.co2Kg
  {
    var e := EstimateImpact(itemLabel, table);
    ItemData(e.material, e.recyclable, e.co2Kg)
  }

  /** Rows after a match in `front` never affect the answer. */
  lemma {:induction false} LaterRowsIrrelevant(front: seq<Row>, back: seq<Row>, itemLabel: string)
    requires exists j :: 0 <= j < |front| && front[j].itemLabel == itemLabel
    ensures EstimateImpact(itemLabel, front + back) == EstimateImpact(itemLabel, front)
  {
    var i: nat := FirstMatch(front, itemLabel).value;
    assert IsFirstMatch(front + back, itemLabel, i) by {
      forall j | 0 <= j < i ensures (front + back)[j].itemLabel != itemLabel {
        assert (front + back)[j] == front[j];
      }
    }
  }

  /**
   * A row whose label differs from the query, in any character, can be removed from
   * (or inserted at) any position without changing the answer.
   */
  lemma {:induction false} NonMatchingRowIrrelevant(front: seq<Row>, row: Row, back: seq<Row>, itemLabel: string)
    requires row.itemLabel != itemLabel
    ensures EstimateImpact(itemLabel, front + [row] + back) == EstimateImpact(itemLabel, front + back)
  {
    var with := front + [row] + back;
    var without := front + back;
    match FirstMatch(without, itemLabel)
    case None =>
      forall j | 0 <= j < |with| ensures with[j].itemLabel != itemLabel {
        if j < |front| { assert with[j] == without[j]; }
        else if j > |front| { assert with[j] == without[j - 1]; }
      }
    case Some(i) =>
      var k: nat := if i < |front| then i else i + 1;
      assert with[k] == without[i];
      assert IsFirstMatch(with, itemLabel, k) by {
        forall j | 0 <= j < k ensures with[j].itemLabel != itemLabel {
          if j < |front| { assert with[j] == without[j]; }
          else if j > |front| { assert with[j] == without[j - 1]; }
        }
      }
  }
}
