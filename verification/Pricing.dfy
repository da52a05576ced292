// Price filters and the clearing price between an indexer's ask and a host's bid.
module Pricing {
  import opened Common

  datatype SubType = TipSub | SnapshotSub

  datatype Price = Price(tipPer1kBlocks: real, snapshotPerRange: real)

  datatype Budget = Budget(maxTipPer1kBlocks: real, maxSnapshotPerRange: real)

  function ClearingPrice(indexerAsk: real, hostBid: real, reliability: real): real {
    if reliability <= 0.0 then hostBid else (indexerAsk * reliability + hostBid) / (1.0 + reliability)
  }

  function AskForType(p: Option<Price>, t: SubType): real {
    match p
    case None => 0.0
    case Some(price) => if t == TipSub then price.tipPer1kBlocks else price.snapshotPerRange
  }

  function BidForType(b: Option<Budget>, t: SubType): real {
    match b
    case None => 0.0
    case Some(budget) => if t == TipSub then budget.maxTipPer1kBlocks else budget.maxSnapshotPerRange
  }

  predicate PriceOverlaps(p: Option<Price>, b: Option<Budget>, t: SubType) {
    p.None? || b.None? || !(BidForType(b, t) > 0.0 && AskForType(p, t) > BidForType(b, t))
  }

  lemma {:induction false} ClearingEquation(ask: real, bid: real, reliability: real)
    requires reliability > 0.0
    ensures var c := ClearingPrice(ask, bid, reliability);
            && (c - ask) * (1.0 + reliability) == bid - ask
            && (bid - c) * (1.0 + reliability) == (bid - ask) * reliability
  {
    var c := ClearingPrice(ask, bid, reliability);
    assert c * (1.0 + reliability) == ask * reliability + bid;
    assert (c - ask) * (1.0 + reliability) == c * (1.0 + reliability) - ask * (1.0 + reliability);
    assert (bid - c) * (1.0 + reliability) == bid * (1.0 + reliability) - c * (1.0 + reliability);
  }

  // The clearing price lies between ask and bid if and only if the ask does not exceed the bid.
  lemma {:induction false} ClearingIsBetweenIff(ask: real, bid: real, reliability: real)
    ensures ask <= ClearingPrice(ask, bid, reliability) <= bid <==> ask <= bid
  {
    if reliability > 0.0 {
      var c := ClearingPrice(ask, bid, reliability);
      ClearingEquation(ask, bid, reliability);
      SignOfProduct(c - ask, 1.0 + reliability);
      SignOfProduct(bid - c, 1.0 + reliability);
      SignOfProduct(bid - ask, reliability);
    }
  }

  lemma {:induction false} SignOfProduct(x: real, y: real)
    requires y > 0.0
    ensures x * y >= 0.0 <==> x >= 0.0
  {
  }

  lemma {:induction false} ProductIsNonNegative(x: real, y: real)
    requires x >= 0.0 && y >= 0.0
    ensures x * y >= 0.0
  {
  }

  // The price moves from the bid towards the ask as reliability grows, reaching the midpoint at 1.
  lemma {:induction false} ClearingFallsWithReliability(ask: real, bid: real, r: real, r': real)
    requires ask <= bid && r <= r'
    ensures ClearingPrice(ask, bid, r') <= ClearingPrice(ask, bid, r)
    ensures ClearingPrice(ask, bid, 1.0) == (ask + bid) / 2.0
  {
    var c, c' := ClearingPrice(ask, bid, r), ClearingPrice(ask, bid, r');
    ClearingIsBetweenIff(ask, bid, r);
    ClearingIsBetweenIff(ask, bid, r');
    if r > 0.0 {
      ClearingEquation(ask, bid, r);
      ClearingEquation(ask, bid, r');
      assert (c' - ask) * (1.0 + r') == (c - ask) * (1.0 + r);
      assert (c - ask) * (1.0 + r') == (c - ask) * (1.0 + r) + (c - ask) * (r' - r);
      ProductIsNonNegative(c - ask, r' - r);
      assert (c - c') * (1.0 + r') == (c - ask) * (1.0 + r') - (c' - ask) * (1.0 + r');
      SignOfProduct(c - c', 1.0 + r');
    }
  }
}
