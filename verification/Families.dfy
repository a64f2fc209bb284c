/** The two families of addresses. */
module Families {
  datatype Family = Inet | Inet6
}
