/** The entity kinds and operations a proposal can name (internal/models/proposals.go). */
module Kinds {
  datatype Kind = Facility | Site | ResourceGroup | Resource | SupportCenter | Project | VO | Bundle

  datatype Operation = Create | Update | Delete
}
