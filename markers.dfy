/** The trade markers of `parseTrades` and `parseDeployerTrades` in
    src/components/trading-view/utils/Datafeed.tsx, reduced to the fields that
    are not formatted numbers: id, colour, label and the verb of the text. */
module Markers {

  /** The fields of a trade the markers read; `kind` is the trade's `type`. */
  datatype Trade = Trade(tx: string, kind: string)

  /** `labelText` is the marker's `label`; `verb` is how its `text` begins. */
  datatype Marker = Marker(id: string, color: string, labelText: string, verb: string)

  /** The marker of one trade; `deployer` selects the deployer variant. */
  function TradeMarker(t: Trade, deployer: bool): (m: Marker)
    ensures m.id == t.tx
    ensures m.color == "red" <==> t.kind == "sell"
    ensures m.labelText in {"S", "B", "DS", "DB"}
    ensures (m.labelText in {"DS", "DB"}) == deployer
  {
    Marker(
      t.tx,
      if t.kind == "sell" then "red" else "blue",
      if deployer then (if t.kind == "sell" then "DS" else "DB") else (if t.kind == "sell" then "S" else "B"),
      if deployer then (if t.kind == "buy" then "Dev bought" else "Dev sold") else (if t.kind == "buy" then "Bought" else "Sold"))
  }

  /** `trades.map(...)`: one marker per trade, in order. */
  function MapTrades(trades: seq<Trade>, deployer: bool): (ms: seq<Marker>)
    ensures |ms| == |trades|
    ensures forall i :: 0 <= i < |trades| ==> ms[i] == TradeMarker(trades[i], deployer)
    decreases |trades|
  {
    if trades == [] then [] else [TradeMarker(trades[0], deployer)] + MapTrades(trades[1..], deployer)
  }

  /** `parseTrades`: the markers of the wallet's own trades. */
  function ParseTrades(trades: seq<Trade>): (ms: seq<Marker>)
    ensures |ms| == |trades|
    ensures forall i :: 0 <= i < |trades| ==>
              && ms[i].id == trades[i].tx
              && (ms[i].color == "red" <==> trades[i].kind == "sell")
              && (ms[i].color == "red" || ms[i].color == "blue")
              && ms[i].labelText == (if trades[i].kind == "sell" then "S" else "B")
  {
    MapTrades(trades, false)
  }

  /** `parseDeployerTrades`: the markers of the deployer's trades. */
  function ParseDeployerTrades(trades: seq<Trade>): (ms: seq<Marker>)
    ensures |ms| == |trades|
    ensures forall i :: 0 <= i < |trades| ==>
              && ms[i].id == trades[i].tx
              && (ms[i].color == "red" <==> trades[i].kind == "sell")
              && (ms[i].color == "red" || ms[i].color == "blue")
              && ms[i].labelText == (if trades[i].kind == "sell" then "DS" else "DB")
  {
    MapTrades(trades, true)
  }

  /** A marker reads as a sell when its label is a sell label. */
  predicate IsSellMarker(m: Marker)
  {
    m.labelText == "S" || m.labelText == "DS"
  }

  /** The side of a trade can be read back from its marker's label, and the
      colour always agrees with the label. */
  lemma SideRecoverable(t: Trade, deployer: bool)
    ensures IsSellMarker(TradeMarker(t, deployer)) <==> t.kind == "sell"
    ensures IsSellMarker(TradeMarker(t, deployer)) <==> TradeMarker(t, deployer).color == "red"
  {
  }

  /** Mapping is compositional: the markers of two batches are the markers of
      the first followed by those of the second. */
  lemma {:induction false} MapTradesAppend(a: seq<Trade>, b: seq<Trade>, deployer: bool)
    ensures MapTrades(a + b, deployer) == MapTrades(a, deployer) + MapTrades(b, deployer)
    decreases |a|
  {
    if a != [] {
      assert (a + b)[1..] == a[1..] + b;
      MapTradesAppend(a[1..], b, deployer);
    }
  }

  /** For buys and sells the text's verb agrees with the label; a trade of any
      other kind is labelled as a buy while its text says it was sold. */
  lemma VerbAgreesWithLabel(t: Trade, deployer: bool)
    ensures t.kind == "buy" ==> TradeMarker(t, deployer).verb in {"Bought", "Dev bought"} && !IsSellMarker(TradeMarker(t, deployer))
    ensures t.kind == "sell" ==> TradeMarker(t, deployer).verb in {"Sold", "Dev sold"} && IsSellMarker(TradeMarker(t, deployer))
    ensures t.kind != "buy" && t.kind != "sell" ==>
              TradeMarker(t, deployer).verb in {"Sold", "Dev sold"} && !IsSellMarker(TradeMarker(t, deployer))
  {
  }
}
