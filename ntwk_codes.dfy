/** The topology loader's status codes and parser states. */
module NtwkCodes {

  datatype NtwkErrCode = Okay | HasZeroConnections | MismatchEndNodeToken | BadFile | BadLine

  /** Which kind of line the topology parser expects next. */
  datatype NtwkParseState = NewNode | GetConnections | EndNode | EndNet | StopParse
}
