/** The numbers the server gives to its connections. */
module Connections {
  type Conn = nat
}
