/**
 * The fire-and-forget `track(event, properties)` call of the client
 * components, modelled as one entry appended to an event log.
 */
module Tracking {

  /** The property bags the components attach to their events. */
  datatype Props =
    | NoProps
    | PriceProps(price: int)
    | EmailProps(email: string)
    | SubmitProps(email: string, willingToPay: bool, mainProblem: string, price: int)

  datatype Tracked = Tracked(event: string, props: Props)
}
