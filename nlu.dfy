// What the NLU service reports for a message (cognitive.py:57-90): intents with a name and a
// score, best first, and entities with a name, a group and a value. The service itself is an
// input to the model.

module Nlu {
  datatype Intent = Intent(name: string, score: real)

  datatype Entity = Entity(name: string, group: string, value: string)

  /** `len(intents) != 0 and intents[0].name == name`: the dialogs' "yes" test. */
  predicate TopIntentIs(intents: seq<Intent>, name: string) {
    |intents| != 0 && intents[0].name == name
  }
}
