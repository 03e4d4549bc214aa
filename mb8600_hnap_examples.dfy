/**
 * Two channel rows of the MB8600 HNAP status pages, worked through the row
 * decoders field by field: one downstream and one upstream row as the modem
 * sends them, and the channel each decodes to.
 */
module Mb8600HnapExamples {
  import opened Wrappers
  import opened Text
  import opened PyNumbers
  import opened Mb8600Hnap

  /** The fields of the downstream row "1^Locked^QAM256^20^543.0^ 1.4^45.1^41^0^"; the closing caret leaves an empty last field. */
  const DownstreamSample: seq<string> := ["1", "Locked", "QAM256", "20", "543.0", " 1.4", "45.1", "41", "0", ""]

  /** The fields of the upstream row "1^Locked^SC-QAM^17^5120^16.4^44.3^". */
  const UpstreamSample: seq<string> := ["1", "Locked", "SC-QAM", "17", "5120", "16.4", "44.3", ""]

  // ---------------------------------------------------------------- reading one field

  lemma IntLiteral(d: string, n: int)
    requires |d| > 0 && forall i :: 0 <= i < |d| ==> IsDigit(d[i])
    requires n == GroupValue(d) as int
    ensures ParseInt(d) == Some(n)
  {
    SignedDigits(d);
  }

  /** Appending a digit to a digit run multiplies its value by ten and adds the digit. */
  lemma DigitAppended(s: string, c: char)
    requires forall i :: 0 <= i < |s| ==> IsDigit(s[i])
    requires IsDigit(c)
    ensures GroupValue(s + [c]) == GroupValue(s) * 10 + DigitValue(c)
  {
    assert (s + [c])[..|s|] == s;
  }

  lemma DecimalLiteral(whole: string, fraction: string, s: string, v: real)
    requires |whole| > 0 && forall i :: 0 <= i < |whole| ==> IsDigit(whole[i])
    requires |fraction| > 0 && forall i :: 0 <= i < |fraction| ==> IsDigit(fraction[i])
    requires s == whole + "." + fraction
    requires v == GroupValue(whole) as real + GroupValue(fraction) as real / Pow10(DigitCount(fraction)) as real
    ensures ParseFloat(s) == Some(Finite(v))
  {
    ParseFloatDecimal(whole, fraction);
    var r := ParseFloat(s);
    assert r.Some? && r.value.Finite? && r.value.value == v;
    assert r.value == Finite(v);
  }

  lemma TextLiteral(s: string)
    requires |s| > 0 && !IsSpace(s[0]) && !IsSpace(s[|s| - 1])
    ensures Strip(s) == s
  {
    StripUnchanged(s);
  }

  /** `float()` ignores the space the modem puts before a power reading. */
  lemma SpacedPower()
    ensures ParseFloat(" 1.4") == Some(Finite(1.4))
  {
    assert StripLeft(" 1.4") == StripLeft("1.4");
    assert StripRight("1.4") == "1.4";
    assert Strip(" 1.4") == "1.4";
    assert Strip("1.4") == "1.4";
    DecimalLiteral("1", "4", "1.4", 1.4);
  }

  // ---------------------------------------------------------------- from the row to its fields

  /** Text that starts with a visible character is not blank, whatever is joined after it. */
  lemma JoinNonBlank(f: seq<string>, sep: string)
    requires |f| >= 1 && |f[0]| > 0 && !IsSpace(f[0][0])
    ensures Strip(Join(f, sep)) != ""
  {
    var s := Join(f, sep);
    assert s[0] == f[0][0];
    StripEmptyIff(s);
  }

  /** A downstream row joined from caret-free fields decodes as those fields. */
  lemma DownstreamJoined(f: seq<string>)
    requires |f| >= 9 && forall i :: 0 <= i < |f| ==> '^' !in f[i]
    requires |f[0]| > 0 && !IsSpace(f[0][0])
    ensures DecodeDownstream(Join(f, "^")) == DownstreamFields(f)
  {
    SplitJoin(f, '^');
    JoinNonBlank(f, "^");
  }

  /** An upstream row joined from caret-free fields decodes as those fields. */
  lemma UpstreamJoined(f: seq<string>)
    requires |f| >= 7 && forall i :: 0 <= i < |f| ==> '^' !in f[i]
    requires |f[0]| > 0 && !IsSpace(f[0][0])
    ensures DecodeUpstream(Join(f, "^")) == UpstreamFields(f)
  {
    SplitJoin(f, '^');
    JoinNonBlank(f, "^");
  }

  /** Downstream fields that each convert to the value in `c` are kept as `c`. */
  lemma DownstreamKept(f: seq<string>, c: DownstreamChannel)
    requires |f| >= 9
    requires ParseInt(f[0]) == Some(c.channelId) && Strip(f[1]) == c.lockStatus && Strip(f[2]) == c.modulation
    requires ParseInt(f[3]) == Some(c.chId)
    requires ParseFloat(f[4]).Some? && FrequencyHz(ParseFloat(f[4]).value) == Success(c.frequency)
    requires ParseFloat(f[5]) == Some(c.power) && ParseFloat(f[6]) == Some(c.snr)
    requires ParseInt(f[7]) == Some(c.corrected) && ParseInt(f[8]) == Some(c.uncorrected)
    ensures DownstreamFields(f) == Keep(c)
  {
    assert DownstreamFields(f) == FrequencyStep(ParseFloat(f[4]), DownstreamRest(f));
    assert FrequencyStep(ParseFloat(f[4]), DownstreamRest(f)) == DownstreamRest(f)(c.frequency);
  }

  /** Upstream fields that each convert to the value in `c` are kept as `c`. */
  lemma UpstreamKept(f: seq<string>, c: UpstreamChannel)
    requires |f| >= 7
    requires ParseInt(f[0]) == Some(c.channelId) && Strip(f[1]) == c.lockStatus && Strip(f[2]) == c.modulation
    requires ParseInt(f[3]) == Some(c.chId) && ParseInt(f[4]) == Some(c.symbolRate)
    requires ParseFloat(f[5]).Some? && FrequencyHz(ParseFloat(f[5]).value) == Success(c.frequency)
    requires ParseFloat(f[6]) == Some(c.power)
    ensures UpstreamFields(f) == Keep(c)
  {
    assert UpstreamFields(f) == FrequencyStep(ParseFloat(f[5]), UpstreamRest(f));
    assert FrequencyStep(ParseFloat(f[5]), UpstreamRest(f)) == UpstreamRest(f)(c.frequency);
  }

  // ---------------------------------------------------------------- the downstream sample

  lemma DownstreamSampleChannelId() ensures ParseInt(DownstreamSample[0]) == Some(1)
  { assert DownstreamSample[0] == "1"; IntLiteral("1", 1); }

  lemma DownstreamSampleChId() ensures ParseInt(DownstreamSample[3]) == Some(20)
  { assert DownstreamSample[3] == "20"; IntLiteral("20", 20); }

  lemma DownstreamSampleCorrected() ensures ParseInt(DownstreamSample[7]) == Some(41)
  { assert DownstreamSample[7] == "41"; IntLiteral("41", 41); }

  lemma DownstreamSampleUncorrected() ensures ParseInt(DownstreamSample[8]) == Some(0)
  { assert DownstreamSample[8] == "0"; IntLiteral("0", 0); }

  lemma DownstreamSampleTexts() ensures Strip(DownstreamSample[1]) == "Locked" && Strip(DownstreamSample[2]) == "QAM256"
  { assert DownstreamSample[1] == "Locked"; TextLiteral("Locked"); assert DownstreamSample[2] == "QAM256"; TextLiteral("QAM256"); }

  lemma DownstreamSampleMhz() ensures ParseFloat(DownstreamSample[4]) == Some(Finite(543.0))
  { assert DownstreamSample[4] == "543.0"; DecimalLiteral("543", "0", "543.0", 543.0); }

  lemma DownstreamSampleHz() ensures FrequencyHz(Finite(543.0)) == Success(543000000)
  { }

  lemma DownstreamSamplePower() ensures ParseFloat(DownstreamSample[5]) == Some(Finite(1.4))
  { assert DownstreamSample[5] == " 1.4"; SpacedPower(); }

  lemma DownstreamSampleSnr() ensures ParseFloat(DownstreamSample[6]) == Some(Finite(45.1))
  { assert DownstreamSample[6] == "45.1"; DecimalLiteral("45", "1", "45.1", 45.1); }

  /** The row "1^Locked^QAM256^20^543.0^ 1.4^45.1^41^0^" is kept as channel 1 at 543 MHz, 1.4 dBmV, 45.1 dB, 41 corrected and 0 uncorrected codewords. */
  lemma DownstreamRowExample()
    ensures DecodeDownstream(Join(DownstreamSample, "^"))
         == Keep(DownstreamChannel(1, "Locked", "QAM256", 20, 543000000, Finite(1.4), Finite(45.1), 41, 0))
  {
    DownstreamJoined(DownstreamSample);
    DownstreamSampleChannelId();
    DownstreamSampleChId();
    DownstreamSampleCorrected();
    DownstreamSampleUncorrected();
    DownstreamSampleTexts();
    DownstreamSampleMhz();
    DownstreamSampleHz();
    DownstreamSamplePower();
    DownstreamSampleSnr();
    DownstreamKept(DownstreamSample, DownstreamChannel(1, "Locked", "QAM256", 20, 543000000, Finite(1.4), Finite(45.1), 41, 0));
  }

  // ---------------------------------------------------------------- the upstream sample

  lemma UpstreamSampleChannelId() ensures ParseInt(UpstreamSample[0]) == Some(1)
  { assert UpstreamSample[0] == "1"; IntLiteral("1", 1); }

  lemma UpstreamSampleChId() ensures ParseInt(UpstreamSample[3]) == Some(17)
  { assert UpstreamSample[3] == "17"; IntLiteral("17", 17); }

  lemma UpstreamSampleSymbolRate() ensures ParseInt(UpstreamSample[4]) == Some(5120)
  {
    assert UpstreamSample[4] == "5120";
    DigitAppended("5", '1');
    assert "5" + ['1'] == "51";
    DigitAppended("51", '2');
    assert "51" + ['2'] == "512";
    DigitAppended("512", '0');
    assert "512" + ['0'] == "5120";
    IntLiteral("5120", 5120);
  }

  lemma UpstreamSampleTexts() ensures Strip(UpstreamSample[1]) == "Locked" && Strip(UpstreamSample[2]) == "SC-QAM"
  { assert UpstreamSample[1] == "Locked"; TextLiteral("Locked"); assert UpstreamSample[2] == "SC-QAM"; TextLiteral("SC-QAM"); }

  lemma UpstreamSampleMhz() ensures ParseFloat(UpstreamSample[5]) == Some(Finite(16.4))
  { assert UpstreamSample[5] == "16.4"; DecimalLiteral("16", "4", "16.4", 16.4); }

  lemma UpstreamSampleHz() ensures FrequencyHz(Finite(16.4)) == Success(16400000)
  { }

  lemma UpstreamSamplePower() ensures ParseFloat(UpstreamSample[6]) == Some(Finite(44.3))
  { assert UpstreamSample[6] == "44.3"; DecimalLiteral("44", "3", "44.3", 44.3); }

  /** The row "1^Locked^SC-QAM^17^5120^16.4^44.3^" is kept as channel 1 at symbol rate 5120, 16.4 MHz and 44.3 dBmV. */
  lemma UpstreamRowExample()
    ensures DecodeUpstream(Join(UpstreamSample, "^"))
         == Keep(UpstreamChannel(1, "Locked", "SC-QAM", 17, 5120, 16400000, Finite(44.3)))
  {
    UpstreamJoined(UpstreamSample);
    UpstreamSampleChannelId();
    UpstreamSampleChId();
    UpstreamSampleSymbolRate();
    UpstreamSampleTexts();
    UpstreamSampleMhz();
    UpstreamSampleHz();
    UpstreamSamplePower();
    UpstreamKept(UpstreamSample, UpstreamChannel(1, "Locked", "SC-QAM", 17, 5120, 16400000, Finite(44.3)));
  }
}
