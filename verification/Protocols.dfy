/** The two Uniswap protocols. */
module Protocols {

  datatype Version = V2 | V3

  function Protocol(v: Version): string {
    if v.V2? then "uniswap_v2" else "uniswap_v3"
  }
}
