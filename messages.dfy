/** A chat message as the services store it: who sent it and its text.
    The source keeps a message as a JSON string in Redis; stringify and parse
    are taken to be inverse on these two fields, so the store holds the value. */
module Messages {

  datatype Sender = User | Bot

  datatype Message = Message(sender: Sender, text: string)
}
