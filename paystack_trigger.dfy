/** The button that opens the payment gateway's checkout. The session
    reference (built from the clock) and the gateway's public key (read from
    the environment) are parameters. */
module PaystackTrigger {
  import opened MockData

  datatype TriggerProps = TriggerProps(amount: int, email: string, isProcessing: bool, balance: int)

  /** The session handed to the gateway. */
  datatype SessionConfig = SessionConfig(
    reference: string,
    email: string,
    amount: int,
    publicKey: string,
    currency: string)

  const Currency := "KES"

  /** The gateway counts in hundredths of a shilling. */
  function MinorUnits(amount: int): int
  {
    amount * 100
  }

  function Config(props: TriggerProps, reference: string, publicKeyEnv: Option<string>): (c: SessionConfig)
    ensures c.amount % 100 == 0 && c.amount / 100 == props.amount
    ensures c.currency == "KES"
    ensures c.email == props.email && c.reference == reference
    ensures c.publicKey == if publicKeyEnv.Some? then publicKeyEnv.value else ""
  {
    SessionConfig(reference, props.email, MinorUnits(props.amount),
                  match publicKeyEnv case Some(k) => k case None => "",
                  Currency)
  }

  /** The session depends on the amount prop and not on the balance or on
      whether a payment is in progress. */
  lemma ConfigIgnoresBalance(props: TriggerProps, balance: int, isProcessing: bool,
                             reference: string, publicKeyEnv: Option<string>)
    ensures Config(props.(balance := balance, isProcessing := isProcessing), reference, publicKeyEnv)
      == Config(props, reference, publicKeyEnv)
  {
  }

  /** `isProcessing || balance <= 0`. */
  predicate ButtonDisabled(props: TriggerProps)
  {
    props.isProcessing || props.balance <= 0
  }

  /** A click opens checkout only when there is a balance to settle. */
  predicate ClickOpensCheckout(props: TriggerProps)
  {
    props.balance > 0
  }

  function Label(props: TriggerProps): string
  {
    if props.isProcessing then "Syncing..."
    else if props.balance <= 0 then "Account Fully Settled"
    else "Settle Balance Securely"
  }

  /** Clicking an enabled button always opens checkout, and the button is
      disabled only while a payment is in progress or when a click would not
      open checkout anyway. */
  lemma EnabledButtonOpensCheckout(props: TriggerProps)
    ensures !ButtonDisabled(props) ==> ClickOpensCheckout(props)
    ensures ButtonDisabled(props) <==> props.isProcessing || !ClickOpensCheckout(props)
  {
  }

  /** The label tells which state the button is in. */
  lemma LabelShowsState(props: TriggerProps)
    ensures Label(props) == "Syncing..." <==> props.isProcessing
    ensures Label(props) == "Account Fully Settled" <==> !props.isProcessing && props.balance <= 0
    ensures Label(props) == "Settle Balance Securely" <==> !ButtonDisabled(props)
  {
  }
}
