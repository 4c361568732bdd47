/** The relative-strength index of an average gain and an average loss. */
module RelativeStrength {
  import opened RealFacts

  function Index(gain: real, loss: real): real
    requires gain >= 0.0 && loss >= 0.0
  {
    if loss == 0.0 then (if gain > 0.0 then 100.0 else 50.0) else 100.0 - 100.0 / (1.0 + gain / loss)
  }

  lemma Reciprocal(x: real, y: real)
    requires x >= 1.0 && y * x == 100.0
    ensures 0.0 <= y <= 100.0
  {
  }

  lemma Share(x: real, y: real, g: real, l: real)
    requires y * x == 100.0 && x * l == g + l
    ensures (100.0 - y) * (g + l) == 100.0 * g
  {
    assert y * (x * l) == (y * x) * l;
  }

  /** The index is the gain's share of gain and loss together, in percent. */
  lemma IndexIsShare(g: real, l: real)
    requires g >= 0.0 && l >= 0.0
    ensures 0.0 <= Index(g, l) <= 100.0
    ensures g + l > 0.0 ==> Index(g, l) * (g + l) == 100.0 * g
  {
    if l > 0.0 {
      Ratio(g, l);
      RatioNotNegative(g, l);
      var x := 1.0 + g / l;
      var y := 100.0 / x;
      assert y * x == 100.0;
      Reciprocal(x, y);
      assert x * l == g + l;
      Share(x, y, g, l);
    }
  }
}
