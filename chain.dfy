/**
 * The shapes of the provider payloads that the address discovery reads
 * (src/model/blockchain.ts), and the rules by which one transaction body
 * contributes addresses (src/blockchain/blockchain.service.ts:54-64).
 */
module Chain {
  import opened Wrappers

  /** A Blockchair block; only its id is read. */
  datatype Block = Block(id: int)

  /** The output an input spends. Its address is typed as a plain string. */
  datatype Prevout = Prevout(scriptpubkeyAddress: string)

  /** A Blockstream input; coinbase inputs carry no prevout. */
  datatype Input = Input(prevout: Option<Prevout>)

  /** A Blockstream output; non-standard outputs carry no address. */
  datatype Output = Output(scriptpubkeyAddress: Option<string>)

  /**
   * A Blockstream transaction body as received. A `vin` or `vout` field that
   * is missing or not an array (so that iterating it throws) is None.
   */
  datatype TransactionBody = TransactionBody(vin: Option<seq<Input>>, vout: Option<seq<Output>>)

  /** JavaScript truthiness of a string. */
  predicate Truthy(s: string) {
    s != ""
  }

  /** The addresses the inputs add, in input order: one per input that has a prevout. */
  function InputAddresses(vin: seq<Input>): (r: seq<string>)
    ensures |r| <= |vin|
  {
    if vin == [] then []
    else
      var last := vin[|vin| - 1];
      InputAddresses(vin[..|vin| - 1])
        + (if last.prevout.Some? then [last.prevout.value.scriptpubkeyAddress] else [])
  }

  /** The addresses the outputs add, in output order: one per output whose address is truthy. */
  function OutputAddresses(vout: seq<Output>): (r: seq<string>)
    ensures |r| <= |vout|
    ensures forall a :: a in r ==> Truthy(a)
  {
    if vout == [] then []
    else
      var last := vout[|vout| - 1];
      OutputAddresses(vout[..|vout| - 1])
        + (if last.scriptpubkeyAddress.Some? && Truthy(last.scriptpubkeyAddress.value)
           then [last.scriptpubkeyAddress.value] else [])
  }

  lemma InputAddressesSnoc(vin: seq<Input>, x: Input)
    ensures InputAddresses(vin + [x])
         == InputAddresses(vin) + (if x.prevout.Some? then [x.prevout.value.scriptpubkeyAddress] else [])
  {
    assert (vin + [x])[..|vin|] == vin;
  }

  lemma OutputAddressesSnoc(vout: seq<Output>, x: Output)
    ensures OutputAddresses(vout + [x])
         == OutputAddresses(vout)
            + (if x.scriptpubkeyAddress.Some? && Truthy(x.scriptpubkeyAddress.value)
               then [x.scriptpubkeyAddress.value] else [])
  {
    assert (vout + [x])[..|vout|] == vout;
  }

  /** An address comes from the inputs exactly when some input's prevout carries it, empty or not. */
  lemma {:induction false} InputAddressesMembers(vin: seq<Input>, a: string)
    ensures a in InputAddresses(vin) <==> exists i :: 0 <= i < |vin| && vin[i].prevout == Some(Prevout(a))
  {
    if vin != [] {
      var n := |vin|;
      var p := vin[..n - 1];
      InputAddressesMembers(p, a);
      if a in InputAddresses(p) {
        var i :| 0 <= i < |p| && p[i].prevout == Some(Prevout(a));
        assert vin[i] == p[i];
      }
      if exists i :: 0 <= i < n && vin[i].prevout == Some(Prevout(a)) {
        var i :| 0 <= i < n && vin[i].prevout == Some(Prevout(a));
        if i < n - 1 {
          assert p[i] == vin[i];
        }
      }
    }
  }

  /** An address comes from the outputs exactly when some output carries it and it is not empty. */
  lemma {:induction false} OutputAddressesMembers(vout: seq<Output>, a: string)
    ensures a in OutputAddresses(vout)
        <==> Truthy(a) && exists i :: 0 <= i < |vout| && vout[i].scriptpubkeyAddress == Some(a)
  {
    if vout != [] {
      var n := |vout|;
      var p := vout[..n - 1];
      OutputAddressesMembers(p, a);
      if a in OutputAddresses(p) {
        var i :| 0 <= i < |p| && p[i].scriptpubkeyAddress == Some(a);
        assert vout[i] == p[i];
      }
      if Truthy(a) && exists i :: 0 <= i < n && vout[i].scriptpubkeyAddress == Some(a) {
        var i :| 0 <= i < n && vout[i].scriptpubkeyAddress == Some(a);
        if i < n - 1 {
          assert p[i] == vout[i];
        }
      }
    }
  }

  /**
   * The asymmetry between the two loops: an empty prevout address is kept,
   * an empty output address is dropped, and a coinbase input or an
   * address-less output adds nothing.
   */
  lemma EmptyAddressAsymmetry(vin: seq<Input>, vout: seq<Output>)
    ensures InputAddresses(vin + [Input(Some(Prevout("")))]) == InputAddresses(vin) + [""]
    ensures OutputAddresses(vout + [Output(Some(""))]) == OutputAddresses(vout)
    ensures InputAddresses(vin + [Input(None)]) == InputAddresses(vin)
    ensures OutputAddresses(vout + [Output(None)]) == OutputAddresses(vout)
  {
    InputAddressesSnoc(vin, Input(Some(Prevout(""))));
    InputAddressesSnoc(vin, Input(None));
    OutputAddressesSnoc(vout, Output(Some("")));
    OutputAddressesSnoc(vout, Output(None));
  }

  /**
   * A transaction spending a, with a coinbase input, paying b, with an
   * address-less output: it contributes exactly a then b.
   */
  lemma CoinbaseAndNonStandardSkipped(a: string, b: string)
    requires Truthy(b)
    ensures InputAddresses([Input(Some(Prevout(a))), Input(None)])
          + OutputAddresses([Output(Some(b)), Output(None)]) == [a, b]
  {
    InputAddressesSnoc([], Input(Some(Prevout(a))));
    assert [] + [Input(Some(Prevout(a)))] == [Input(Some(Prevout(a)))];
    InputAddressesSnoc([Input(Some(Prevout(a)))], Input(None));
    assert [Input(Some(Prevout(a)))] + [Input(None)] == [Input(Some(Prevout(a))), Input(None)];
    OutputAddressesSnoc([], Output(Some(b)));
    assert [] + [Output(Some(b))] == [Output(Some(b))];
    OutputAddressesSnoc([Output(Some(b))], Output(None));
    assert [Output(Some(b))] + [Output(None)] == [Output(Some(b)), Output(None)];
  }
}
