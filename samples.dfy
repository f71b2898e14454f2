/** The records the library's own tests look up, as a small table, and those lookups. */
module Iso3166Samples {

  import opened Wrappers
  import opened Ascii
  import opened Decimal
  import opened Iso3166

  const India := Country("India", "IN", "IND", "356")
  const Norway := Country("Norway", "NO", "NOR", "578")
  const Aland := Country("\U{C5}land Islands", "AX", "ALA", "248")
  const Bosnia := Country("Bosnia and Herzegovina", "BA", "BIH", "070")
  const AmericanSamoa := Country("American Samoa", "AS", "ASM", "016")
  const Antigua := Country("Antigua and Barbuda", "AG", "ATG", "028")
  const Poland := Country("Poland", "PL", "POL", "616")
  const Australia := Country("Australia", "AU", "AUS", "036")

  const Sample: seq<Country> := [India, Norway, Aland, Bosnia, AmericanSamoa, Antigua, Poland, Australia]

  lemma SampleGetAll()
    ensures GetAllCountries(Sample) == Sample
  {
  }

  lemma SampleMissName()
    ensures FindCountry(Sample, "Unknown") == None
  {
    var name := "Unknown";
    assert forall i :: 0 <= i < |Sample| ==> |Sample[i].country| != |name|;
    FindCountryLengthMismatch(Sample, name);
  }

  lemma SampleMissAlpha2()
    ensures FindAlpha2(Sample, "xx") == None
    ensures FindAlpha2(Sample, "xxx") == None
  {
    assert Upper("xx") == "XX";
    FindAlpha2LengthMismatch(Sample, "xxx");
  }

  lemma SampleMissAlpha3()
    ensures FindAlpha3(Sample, "xxx") == None
  {
    assert Upper("xxx") == "XXX";
  }

  lemma SampleMissNum3()
    ensures FindNum3(Sample, Str("999")) == None
  {
  }

  lemma SampleByNameUpper()
    ensures FindCountry(Sample, "INDIA") == Some(India)
  {
    assert Upper("INDIA") == Upper("India") == "INDIA";
    FindCountryFirst(Sample, 0, "INDIA");
  }

  lemma SampleByNameLower()
    ensures FindCountry(Sample, "norway") == Some(Norway)
  {
    assert Upper("norway") == Upper("Norway") == "NORWAY";
    assert |Upper("India")| == 5;
    FindCountryFirst(Sample, 1, "norway");
  }

  lemma SampleByAlpha2()
    ensures FindAlpha2(Sample, "ax") == Some(Aland)
    ensures FindAlpha2(Sample, "BA") == Some(Bosnia)
  {
    assert Upper("ax") == "AX";
    FindAlpha2First(Sample, 2, "ax");
    assert Upper("BA") == "BA";
    FindAlpha2First(Sample, 3, "BA");
  }

  lemma SampleByAlpha3()
    ensures FindAlpha3(Sample, "asm") == Some(AmericanSamoa)
    ensures FindAlpha3(Sample, "ATG") == Some(Antigua)
  {
    assert Upper("asm") == "ASM";
    FindAlpha3First(Sample, 4, "asm");
    assert Upper("ATG") == "ATG";
    FindAlpha3First(Sample, 5, "ATG");
  }

  lemma SampleByNum3()
    ensures FindNum3(Sample, Num(616)) == Some(Poland)
    ensures FindNum3(Sample, Str("036")) == Some(Australia)
    ensures FindNum3(Sample, Num(36)) == None
  {
    assert NatToDecimal(6) == "6";
    assert NatToDecimal(61) == "61";
    assert NatToDecimal(616) == "616";
    FindNum3First(Sample, 6, Num(616));
    FindNum3First(Sample, 7, Str("036"));
    assert NatToDecimal(3) == "3";
    assert NatToDecimal(36) == "36";
  }
}
