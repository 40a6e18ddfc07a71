/**
 * `InviteFlow`: which contacts the picker lets the user select for an invite,
 * and whom the invite is then addressed to. The channel is chosen by the
 * message or mail action and read back by the contacts-picker callbacks.
 */
module InviteFlow {
  import opened Basics

  datatype Channel = Message | Mail | Twitter

  /** What the picker knows of a contact: its phone numbers as typed and its email addresses, in order. */
  datatype Contact = Contact(userTextPhoneNumbers: seq<string>, emails: seq<string>)

  /** The composer an invite is handed to, with its recipient list. */
  datatype Invite = SendSMS(phoneNumbers: seq<string>) | SendMail(emails: seq<string>)

  /** `contactsPicker(_:shouldSelectContact:)`: a contact must be reachable on the chosen channel. */
  function ShouldSelectContact(channel: Option<Channel>, contact: Contact): (r: bool)
    ensures channel == Some(Message) ==> (r <==> |contact.userTextPhoneNumbers| > 0)
    ensures channel == Some(Mail) ==> (r <==> |contact.emails| > 0)
    ensures channel.None? || channel == Some(Twitter) ==> r
  {
    match channel
    case None => true
    case Some(Message) => |contact.userTextPhoneNumbers| > 0
    case Some(Mail) => |contact.emails| > 0
    case Some(Twitter) => true
  }

  /** The first phone number of each contact that has one, in contact order. */
  function FirstPhoneNumbers(contacts: seq<Contact>): (numbers: seq<string>)
    ensures |numbers| <= |contacts|
    ensures forall n | n in numbers :: exists c | c in contacts :: c.userTextPhoneNumbers != [] && n == c.userTextPhoneNumbers[0]
  {
    if contacts == [] then []
    else
      var rest := FirstPhoneNumbers(contacts[1..]);
      assert forall c | c in contacts[1..] :: c in contacts;
      if contacts[0].userTextPhoneNumbers == [] then rest
      else [contacts[0].userTextPhoneNumbers[0]] + rest
  }

  /** The first email address of each contact that has one, in contact order. */
  function FirstEmails(contacts: seq<Contact>): (emails: seq<string>)
    ensures |emails| <= |contacts|
    ensures forall e | e in emails :: exists c | c in contacts :: c.emails != [] && e == c.emails[0]
  {
    if contacts == [] then []
    else
      var rest := FirstEmails(contacts[1..]);
      assert forall c | c in contacts[1..] :: c in contacts;
      if contacts[0].emails == [] then rest
      else [contacts[0].emails[0]] + rest
  }

  /** `contactsPicker(_:didSelectMultipleContacts:)`: nothing is sent without a message or mail channel. */
  function InviteFor(channel: Option<Channel>, contacts: seq<Contact>): (r: Option<Invite>)
    ensures r.Some? <==> channel == Some(Message) || channel == Some(Mail)
    ensures channel == Some(Message) ==> r == Some(SendSMS(FirstPhoneNumbers(contacts)))
    ensures channel == Some(Mail) ==> r == Some(SendMail(FirstEmails(contacts)))
  {
    match channel
    case Some(Message) => Some(SendSMS(FirstPhoneNumbers(contacts)))
    case Some(Mail) => Some(SendMail(FirstEmails(contacts)))
    case _ => None
  }

  class InviteFlow {
    var channel: Option<Channel>

    constructor ()
      ensures channel.None?
    {
      channel := None;
    }

    /** The message action: chooses the SMS channel before the picker is shown. */
    method ChooseMessage()
      modifies this
      ensures channel == Some(Message)
    {
      channel := Some(Message);
    }

    /** The mail action: chooses the mail channel before the picker is shown. */
    method ChooseMail()
      modifies this
      ensures channel == Some(Mail)
    {
      channel := Some(Mail);
    }

    /** `contactsPicker(_:shouldSelectContact:)`. */
    method ShouldSelect(contact: Contact) returns (r: bool)
      ensures r == ShouldSelectContact(channel, contact)
    {
      if channel.None? {
        return true;
      }
      match channel.value {
        case Message => return |contact.userTextPhoneNumbers| > 0;
        case Mail => return |contact.emails| > 0;
        case Twitter =>
      }
      return true;
    }

    /** `contactsPicker(_:didSelectMultipleContacts:)`: the composer invite handed on, if any. */
    method DidSelectMultipleContacts(contacts: seq<Contact>) returns (r: Option<Invite>)
      ensures r == InviteFor(channel, contacts)
    {
      if channel.None? {
        return None;
      }
      match channel.value {
        case Message =>
          var phoneNumbers := FirstPhoneNumbers(contacts);
          r := Some(SendSMS(phoneNumbers));
        case Mail =>
          var recipients := FirstEmails(contacts);
          r := Some(SendMail(recipients));
        case Twitter =>
          r := None;
      }
    }
  }

  // ---------------------------------------------------------------------------
  // Properties

  /** Recipient extraction keeps contact order: the list for joined contact lists is the joined lists. */
  lemma {:induction false} FirstPhoneNumbersAppend(a: seq<Contact>, b: seq<Contact>)
    ensures FirstPhoneNumbers(a + b) == FirstPhoneNumbers(a) + FirstPhoneNumbers(b)
  {
    if a != [] {
      assert (a + b)[1..] == a[1..] + b;
      FirstPhoneNumbersAppend(a[1..], b);
    } else {
      assert a + b == b;
    }
  }

  lemma {:induction false} FirstEmailsAppend(a: seq<Contact>, b: seq<Contact>)
    ensures FirstEmails(a + b) == FirstEmails(a) + FirstEmails(b)
  {
    if a != [] {
      assert (a + b)[1..] == a[1..] + b;
      FirstEmailsAppend(a[1..], b);
    } else {
      assert a + b == b;
    }
  }

  /**
   * When every contact passed the SMS selection rule, no contact is dropped:
   * the i-th recipient is the first phone number of the i-th contact.
   */
  lemma {:induction false} SelectedForMessageAllReceive(contacts: seq<Contact>)
    requires forall i | 0 <= i < |contacts| :: ShouldSelectContact(Some(Message), contacts[i])
    ensures |FirstPhoneNumbers(contacts)| == |contacts|
    ensures forall i | 0 <= i < |contacts| :: contacts[i].userTextPhoneNumbers != [] && FirstPhoneNumbers(contacts)[i] == contacts[i].userTextPhoneNumbers[0]
  {
    if contacts != [] {
      SelectedForMessageAllReceive(contacts[1..]);
      assert forall i | 1 <= i < |contacts| :: contacts[i] == contacts[1..][i - 1];
    }
  }

  /** When every contact passed the mail selection rule, each one's first email is a recipient, in order. */
  lemma {:induction false} SelectedForMailAllReceive(contacts: seq<Contact>)
    requires forall i | 0 <= i < |contacts| :: ShouldSelectContact(Some(Mail), contacts[i])
    ensures |FirstEmails(contacts)| == |contacts|
    ensures forall i | 0 <= i < |contacts| :: contacts[i].emails != [] && FirstEmails(contacts)[i] == contacts[i].emails[0]
  {
    if contacts != [] {
      SelectedForMailAllReceive(contacts[1..]);
      assert forall i | 1 <= i < |contacts| :: contacts[i] == contacts[1..][i - 1];
    }
  }

  /** A contact without a phone number contributes nothing to the SMS recipient list. */
  lemma UnreachableContactIsDropped(contacts: seq<Contact>, i: nat)
    requires i < |contacts| && contacts[i].userTextPhoneNumbers == []
    ensures FirstPhoneNumbers(contacts) == FirstPhoneNumbers(contacts[..i]) + FirstPhoneNumbers(contacts[i + 1..])
  {
    assert contacts == contacts[..i] + ([contacts[i]] + contacts[i + 1..]);
    FirstPhoneNumbersAppend(contacts[..i], [contacts[i]] + contacts[i + 1..]);
    assert ([contacts[i]] + contacts[i + 1..])[1..] == contacts[i + 1..];
  }
}
