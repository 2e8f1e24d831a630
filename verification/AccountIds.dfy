/** Identifiers of saved accounts. */
module AccountIds {
  type Id = string

  /** Virtual provider accounts have identifiers of their own form, so an identifier tells the kind of its account. */
  predicate VirtualId(id: Id) {
    "virtual:" <= id
  }
}
