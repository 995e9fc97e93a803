/** The mock gateway: an object that remembers its decision for every key. */
module PaymentGateway {
  import opened Domain

  class MockPaymentGateway {
    var failureRate: real
    var processed: map<Key, Charge>
    var refunds: seq<Ref>

    constructor (failureRate: real)
      ensures View() == Gateway(map[], []) && this.failureRate == failureRate
    {
      this.failureRate := failureRate;
      processed := map[];
      refunds := [];
    }

    ghost function View(): Gateway
      reads this
    {
      Gateway(processed, refunds)
    }

    /** roll and ref stand for the random number and the generated reference. */
    method ChargeCard(key: Key, roll: real, ref: Ref) returns (result: Charge)
      modifies this`processed
      ensures key in processed && processed[key] == result
      ensures key in old(processed) ==> processed == old(processed)
      ensures key !in old(processed) ==>
              processed - {key} == old(processed) && (result == Declined <==> roll < failureRate)
                  && (result.Accepted? ==> result.ref == ref)
    {
      if key in processed {
        return processed[key];
      }
      if roll < failureRate {
        result := Declined;
      } else {
        result := Accepted(ref);
      }
      processed := processed[key := result];
    }

    method RefundCharge(ref: Ref)
      modifies this`refunds
      ensures refunds == old(refunds) + [ref]
    {
      refunds := refunds + [ref];
    }
  }
}
