/** The LangChain message kinds the app distinguishes (app.py:11). */
module Messages {

  /**
   * A chat message. `OtherMessage` stands for every kind the app does not
   * recognise (tool messages, for example), with its kind named.
   */
  datatype Message =
    | SystemMessage(content: string)
    | HumanMessage(content: string)
    | AIMessage(content: string)
    | OtherMessage(kind: string, content: string)
}
