/** One entry of the message log: its text and the name of whoever sent
    it. The record holds both strings as given; an empty sender means "no
    sender". */
module Messages {
  datatype Message = Message(body: string, sender: string)
}
