/** The states of a connection, shared by the model of its output side and that of its life across loops. */
module ConnectionState {
  datatype ConnState = Disconnected | Connecting | Connected | Disconnecting
}
