/** The Service schema (src/models/serviceModel.js). */
module ServiceModel {
  import opened Common
  import opened Text

  /** `price` is a required number with `min: 0`, so a natural number here. */
  datatype Service = Service(name: string, description: Option<string>, price: nat)

  /** A stored service passed validation: its name is trimmed and, being required, not empty. */
  predicate WellFormed(s: Service) {
    IsTrimmed(s.name) && s.name != ""
  }

  /** `Service.create`: the trim setter runs, then validation; the name is
      required (so not empty after trimming) and the price is a required
      number no less than 0. */
  function Validate(name: string, description: Option<string>, price: Option<int>): (r: Option<Service>)
    ensures r.Some? <==> Trim(name) != "" && price.Some? && price.value >= 0
    ensures r.Some? ==>
      && WellFormed(r.value) && r.value.name == Trim(name)
      && r.value.description == description && r.value.price == price.value
  {
    if Trim(name) != "" && price.Some? && price.value >= 0 then
      Some(Service(Trim(name), description, price.value))
    else
      None
  }
}
