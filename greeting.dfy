/** The message that `GreetingService.createGreeting` puts in its Greeting.
    Java's nullable `String` parameter is an `Option<string>`. */
module Greeting {
  import opened Wrappers

  const Salutation := "Hello, "
  const DefaultMessage := "Hello, World!"

  /** A missing or empty name greets the world; any other name, blank ones
      included (the test is `isEmpty`, not `isBlank`), is greeted by name. */
  function CreateGreeting(name: Option<string>): (message: string)
    ensures |message| >= |Salutation| + 1
    ensures message[..|Salutation|] == Salutation && message[|message| - 1] == '!'
    ensures name.None? || name.value == "" ==> message == DefaultMessage
    ensures name.Some? && name.value != "" ==>
              message[|Salutation|..|message| - 1] == name.value
  {
    if name.Some? && name.value != "" then Salutation + name.value + "!" else DefaultMessage
  }

  /** The name between the salutation and the final `!`. */
  function GreetedName(message: string): (name: string)
    requires |message| >= |Salutation| + 1
    ensures |name| == |message| - |Salutation| - 1
  {
    message[|Salutation|..|message| - 1]
  }

  /** The greeted name can be read back from a message for any non-empty
      name. */
  lemma {:induction false} GreetingRoundTrip(name: string)
    requires name != ""
    ensures GreetedName(CreateGreeting(Some(name))) == name
  {
  }

  /** Distinct non-empty names get distinct messages. */
  lemma {:induction false} GreetingInjective(a: string, b: string)
    requires a != "" && b != ""
    requires CreateGreeting(Some(a)) == CreateGreeting(Some(b))
    ensures a == b
  {
    GreetingRoundTrip(a);
    GreetingRoundTrip(b);
  }

  /** A missing name, an empty one and the name "World" give the same
      message; a single space is greeted as a name. */
  lemma {:induction false} GreetingExamples()
    ensures CreateGreeting(None) == "Hello, World!"
    ensures CreateGreeting(Some("")) == "Hello, World!"
    ensures CreateGreeting(Some("World")) == CreateGreeting(None)
    ensures CreateGreeting(Some(" ")) == "Hello,  !"
    ensures CreateGreeting(Some("Ada")) == "Hello, Ada!"
  {
  }
}
