/** Concrete cases worked through the model: one catalogue row cleaned, and
    one phone scored inside and outside the budget. Each lemma names its
    input by a parameter fixed by its precondition. */
module WorkedCases {
  import opened Common
  import opened Text
  import opened Catalogue
  import opened Scoring

  /** "50MP+8MP+2MP" averages to 20 MP, a camera term of 0.2. */
  lemma TripleCameraTerm(camera: string)
    requires camera == "50MP+8MP+2MP"
    ensures CameraTerm(Some(camera)) == 0.2
  {
    var ds := ["50", "8", "2"];
    assert forall i | 0 <= i < |ds| :: |ds[i]| > 0 && AllDigits(ds[i]);
    CameraTermOfLabels(ds);
    TripleLabels(ds, camera);
    TripleMean(ds);
  }

  lemma TripleLabels(ds: seq<string>, camera: string)
    requires ds == ["50", "8", "2"] && camera == "50MP+8MP+2MP"
    ensures Join(MPLabels(ds), '+') == camera
  {
    var labels := MPLabels(ds);
    assert labels[0] == "50" + "MP" == "50MP";
    assert labels[1] == "8" + "MP" == "8MP";
    assert labels[2] == "2" + "MP" == "2MP";
    assert labels == ["50MP", "8MP", "2MP"];
    assert labels[1..] == ["8MP", "2MP"] && labels[1..][1..] == ["2MP"];
    assert Join(labels[1..][1..], '+') == "2MP";
    assert Join(labels[1..], '+') == "8MP" + ['+'] + "2MP" == "8MP+2MP";
    assert Join(labels, '+') == "50MP" + ['+'] + "8MP+2MP";
  }

  lemma TripleMean(ds: seq<string>)
    requires ds == ["50", "8", "2"]
    ensures forall i | 0 <= i < |ds| :: AllDigits(ds[i])
    ensures Mean(DigitValues(ds)) == 20.0
  {
    assert DigitsValue("50") == 50 by { assert "50"[..1] == "5"; }
    assert DigitsValue("8") == 8 && DigitsValue("2") == 2;
    var vals := DigitValues(ds);
    assert vals == [50.0, 8.0, 2.0];
    assert vals[1..] == [8.0, 2.0] && vals[1..][1..] == [2.0] && vals[1..][1..][1..] == [];
    assert Sum(vals[1..][1..]) == 2.0;
    assert Sum(vals[1..]) == 10.0;
    assert Sum(vals) == 60.0;
  }

  /** A phone priced 18000 with 8 GB, 5000 mAh and "50MP+8MP+2MP", in a
      catalogue whose maxima are 16 GB and 6000 mAh, on Balanced priority:
      inside a 10000-30000 budget it scores 1 + 1 + 5/6 + 0.2 = 91/30; priced
      40000 it loses the budget bonus and scores -0.5 + 1 + 5/6 + 0.2 = 23/15. */
  lemma BalancedExample(p: Phone)
    requires p.ram == Some(8.0) && p.battery == Some(5000.0) && p.camera == Some("50MP+8MP+2MP")
    ensures Score(p.(price := Some(18000.0)), Balanced, 10000.0, 30000.0, 16.0, 6000.0) == 91.0 / 30.0
    ensures Score(p.(price := Some(40000.0)), Balanced, 10000.0, 30000.0, 16.0, 6000.0) == 23.0 / 15.0
  {
    TripleCameraTerm(p.camera.value);
  }

  /** "Samsung Galaxy M14" priced "₹12,999" with "4 GB RAM" and "6000 mAh"
      loads as brand "Samsung", price 12999, RAM 4 and battery 6000. */
  lemma CleanedRow(row: RawRow)
    requires row == RawRow(Some("Samsung Galaxy M14"), Some("\U{20B9}12,999"), Some("4 GB RAM"),
                           Some("6000 mAh"), Some("50MP+2MP+2MP"))
    ensures CleanRow(row)
         == Ok(Phone(Some("Samsung"), row.model, Some(12999.0), Some(4.0), Some(6000.0), row.camera))
  {
    SampleBrand(row.model.value);
    SamplePrice(row.price.value);
    SampleRam(row.ram.value);
    SampleBattery(row.battery.value);
  }

  lemma SampleBrand(model: string)
    requires model == "Samsung Galaxy M14"
    ensures DeriveBrand(Some(model)) == Ok(Some("Samsung"))
  {
    var t, post := "Samsung", " Galaxy M14";
    assert NoSpace(t) by {
      forall i | 0 <= i < |t| ensures 'A' <= t[i] <= 'z' { }
    }
    assert IsSpace(post[0]);
    var none: string := [];
    assert none + t + post == model;
    FirstTokenOf(none, t, post);
  }

  lemma SamplePrice(price: string)
    requires price == "\U{20B9}12,999"
    ensures CleanPrice(Some(price)) == Ok(Some(12999.0))
  {
    var a, b := "12", "999";
    assert AllDigits(a) && AllDigits(b);
    RupeePrice(a, b);
    assert ['\U{20B9}'] + a + [','] + b == price;
    assert DigitsValue(a) == 12 by { assert a[..1] == "1"; }
    assert DigitsValue(b) == 999 by {
      assert DigitsValue("99") == 99 by { assert "99"[..1] == "9"; }
      assert b[..2] == "99";
    }
    assert Pow10(|b|) == 1000 by {
      assert |b| == 3;
      assert Pow10(1) == 10 && Pow10(2) == 100 && Pow10(3) == 1000;
    }
    assert (12 * 1000 + 999) as real == 12999.0;
  }

  lemma SampleRam(cell: string)
    requires cell == "4 GB RAM"
    ensures ExtractCount(Some(cell)) == Some(4.0)
  {
    SampleCount(cell, "4", " GB RAM");
  }

  lemma SampleBattery(cell: string)
    requires cell == "6000 mAh"
    ensures ExtractCount(Some(cell)) == Some(6000.0)
  {
    SampleCount(cell, "6000", " mAh");
    assert DigitsValue("6") == 6;
    assert DigitsValue("60") == 60 by { assert "60"[..1] == "6"; }
    assert DigitsValue("600") == 600 by { assert "600"[..2] == "60"; }
    assert "6000"[..3] == "600";
  }

  lemma SampleCount(cell: string, d: string, post: string)
    requires cell == d + post && |d| > 0 && AllDigits(d)
    requires post == [] || !IsDigit(post[0])
    ensures ExtractCount(Some(cell)) == Some(DigitsValue(d) as real)
  {
    var none: string := [];
    assert none + d == d;
    ExtractCountOf(none, d, post);
  }
}
