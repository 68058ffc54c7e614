/** A capture that fills a table of six layers and then makes the decoder write
    into one of the headers it has recorded. */
module DecoderFullTable {
  import opened Bytes
  import opened DecoderModel
  import opened DecoderLaws
  import opened DecoderOrder
  import opened DecoderParse
  import opened DecoderPppoe
  import DecoderParseIff

  /** 86 octets: the tag at 46 is followed by an LLC header that names PPPoE, and
      the length field of the outer PPPoE header reads as the PPP protocol of a
      compressed TCP header. */
  predicate FullTableCapture(d: seq<byte>) {
    && GreTagCapture(d, 86)
    && Be16(d, 48) == 0 && d[50] == 0xaa && d[51] == 0xaa && Be16(d, 56) == TYPE_PPPOE_SESS
    && d[18] == 0 && d[19] == 0x2f
  }

  /** Behind the LLC branch PPPoE is found at 12, PPP at 18, and IPv4 at 20; none
      is recorded, but octet 29 is written. */
  lemma FullTableSteps(cfg: Config, data: seq<byte>, full: State, written: State)
    requires cfg.layerMax == 6 && FullTableCapture(data)
    requires full == On(data, Recorded(6), Some(22)) && written == On(data[29 := PROTO_TCP], Recorded(6), Some(22))
    ensures Step(cfg, On(data, Recorded(5), Some(22)), DoVlan, 46, 40) == Next(full, DoPppoe, 12, 28)
    ensures Step(cfg, full, DoPppoe, 12, 28) == Next(full, DoPpp, 18, 22)
    ensures Step(cfg, full, DoPpp, 18, 22) == Next(written, DoIp, 20, 20)
    ensures Step(cfg, written, DoIp, 20, 20) == Stop(written.(iph := None, encapsulated := true))
  {
    OneMore(6, 6);
  }

  lemma FullTableEnd(cfg: Config, data: seq<byte>, r: State)
    requires cfg.layerMax == 6 && FullTableCapture(data)
    requires r == On(data[29 := PROTO_TCP], Recorded(6), None).(encapsulated := true)
    ensures Run(cfg, On(data, Recorded(5), Some(22)), DoVlan, 46, 40) == r
  {
    var full, written := On(data, Recorded(6), Some(22)), On(data[29 := PROTO_TCP], Recorded(6), Some(22));
    FullTableSteps(cfg, data, full, written);
    assert Run(cfg, written, DoIp, 20, 20) == r;
    assert Run(cfg, full, DoPpp, 18, 22) == r;
    assert Run(cfg, full, DoPppoe, 12, 28) == r;
  }

  /** With such fragment bits the IPv4 header would not be decoded further. */
  lemma FragmentNamesNothing(cfg: Config, data: seq<byte>)
    requires FullTableCapture(data)
    ensures !Parsed(cfg, data[29 := PROTO_TCP], Recorded(6))
  {
    var d := data[29 := PROTO_TCP];
    if Parsed(cfg, d, Recorded(6)) {
      ParsedAt(cfg, d, Recorded(6), 4);
      assert false;
    }
  }

  lemma RecordedInOrder()
    ensures InOrder(Recorded(6))
  {
    var l := Recorded(6);
    assert l == [Layer(Eth, 0, 14), Layer(Pppoe, 14, 6), Layer(PppEncap, 20, 2), Layer(Ip4, 22, 20),
                 Layer(Gre, 42, 4), Layer(Vlan, 46, 4)];
  }

  /** The layers are in order, and no call behind the LLC branch records one;
      still they are no parse of the capture any more. */
  lemma FullTableSpoils(cfg: Config, data: seq<byte>)
    requires cfg.layerMax == 6 && FullTableCapture(data)
    ensures var r := Decode(cfg, data);
            && r.layers == [Layer(Eth, 0, 14), Layer(Pppoe, 14, 6), Layer(PppEncap, 20, 2), Layer(Ip4, 22, 20),
                            Layer(Gre, 42, 4), Layer(Vlan, 46, 4)]
            && r.data == data[29 := PROTO_TCP]
            && InOrder(r.layers) && !Parsed(cfg, r.data, r.layers)
    ensures !RunOverlaps(cfg, Initial(data), DoEth, 0, 86)
    ensures DecoderParseIff.RunSpoils(cfg, Initial(data), DoEth, 0, 86)
  {
    var r := On(data[29 := PROTO_TCP], Recorded(6), None).(encapsulated := true);
    FullTableEnd(cfg, data, r);
    GreTagRun(cfg, data, 86, r);
    FragmentNamesNothing(cfg, data);
    RecordedInOrder();
    DecodeInOrderIff(cfg, data);
    DecoderParseIff.DecodeParsesIff(cfg, data);
  }
}
