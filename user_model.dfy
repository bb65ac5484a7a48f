/**
 * The pure part of the `User` model of models/user.js: how the rows a query
 * returns become the records the model hands back. The queries themselves are
 * not modelled; each operation takes the rows the database returned.
 */
module UserModel {
  import opened Wrappers
  import opened ExpressErrors

  /** A point in time as the database returns it; the model only copies it. */
  type Timestamp = int

  /** One row of the `messagesFrom` query, field by field as the SELECT list aliases it. */
  datatype SentRow = SentRow(
    messageId: int,
    toUsername: string,
    body: string,
    sentAt: Timestamp,
    readAt: Option<Timestamp>,
    username: string,
    toFirst: string,
    toLast: string,
    toPhone: string)

  /** One row of the `messagesTo` query. */
  datatype ReceivedRow = ReceivedRow(
    messageId: int,
    fromUsername: string,
    body: string,
    sentAt: Timestamp,
    readAt: Option<Timestamp>,
    username: string,
    fromFirst: string,
    fromLast: string,
    fromPhone: string)

  /** `{username, first_name, last_name, phone}` */
  datatype UserSummary = UserSummary(username: string, firstName: string, lastName: string, phone: string)

  /** `{id, to_user, body, sent_at, read_at}` */
  datatype SentMessage = SentMessage(id: int, toUser: UserSummary, body: string, sentAt: Timestamp,
                                     readAt: Option<Timestamp>)

  /** `{id, from_user, body, sent_at, read_at}` */
  datatype ReceivedMessage = ReceivedMessage(id: int, fromUser: UserSummary, body: string, sentAt: Timestamp,
                                             readAt: Option<Timestamp>)

  /** The callback `messagesFrom` maps over its rows. */
  function ShapeSent(row: SentRow): SentMessage {
    SentMessage(row.messageId, UserSummary(row.toUsername, row.toFirst, row.toLast, row.toPhone),
                row.body, row.sentAt, row.readAt)
  }

  /** The callback `messagesTo` maps over its rows. */
  function ShapeReceived(row: ReceivedRow): ReceivedMessage {
    ReceivedMessage(row.messageId, UserSummary(row.fromUsername, row.fromFirst, row.fromLast, row.fromPhone),
                    row.body, row.sentAt, row.readAt)
  }

  /**
   * `messagesFrom`: one record per row, in the order of the rows, with the
   * message's id, body and timestamps copied and the recipient nested.
   */
  function MessagesFrom(rows: seq<SentRow>): (messages: seq<SentMessage>)
    ensures |messages| == |rows|
    ensures forall i :: 0 <= i < |rows| ==>
              && messages[i].id == rows[i].messageId
              && messages[i].toUser == UserSummary(rows[i].toUsername, rows[i].toFirst, rows[i].toLast, rows[i].toPhone)
              && messages[i].body == rows[i].body
              && messages[i].sentAt == rows[i].sentAt
              && messages[i].readAt == rows[i].readAt
  {
    if rows == [] then [] else [ShapeSent(rows[0])] + MessagesFrom(rows[1..])
  }

  /**
   * `messagesTo`: one record per row, in order, with the sender nested under
   * the key `username` (not `id`, as the comment above it says).
   */
  function MessagesTo(rows: seq<ReceivedRow>): (messages: seq<ReceivedMessage>)
    ensures |messages| == |rows|
    ensures forall i :: 0 <= i < |rows| ==>
              && messages[i].id == rows[i].messageId
              && messages[i].fromUser == UserSummary(rows[i].fromUsername, rows[i].fromFirst, rows[i].fromLast, rows[i].fromPhone)
              && messages[i].body == rows[i].body
              && messages[i].sentAt == rows[i].sentAt
              && messages[i].readAt == rows[i].readAt
  {
    if rows == [] then [] else [ShapeReceived(rows[0])] + MessagesTo(rows[1..])
  }

  /**
   * The join of both queries matches the message's counterpart to the user
   * row, so the otherwise unused `username` column repeats the counterpart.
   */
  predicate JoinedOnRecipient(row: SentRow) { row.username == row.toUsername }

  predicate JoinedOnSender(row: ReceivedRow) { row.username == row.fromUsername }

  /** The row a sent-message record was built from. */
  function SentRowOf(m: SentMessage): SentRow {
    SentRow(m.id, m.toUser.username, m.body, m.sentAt, m.readAt,
            m.toUser.username, m.toUser.firstName, m.toUser.lastName, m.toUser.phone)
  }

  /** The row a received-message record was built from. */
  function ReceivedRowOf(m: ReceivedMessage): ReceivedRow {
    ReceivedRow(m.id, m.fromUser.username, m.body, m.sentAt, m.readAt,
                m.fromUser.username, m.fromUser.firstName, m.fromUser.lastName, m.fromUser.phone)
  }

  function SentRowsOf(messages: seq<SentMessage>): (rows: seq<SentRow>) {
    if messages == [] then [] else [SentRowOf(messages[0])] + SentRowsOf(messages[1..])
  }

  function ReceivedRowsOf(messages: seq<ReceivedMessage>): (rows: seq<ReceivedRow>) {
    if messages == [] then [] else [ReceivedRowOf(messages[0])] + ReceivedRowsOf(messages[1..])
  }

  /** Reshaping the rows of `messagesFrom` loses nothing the join did not already repeat. */
  lemma {:induction false} MessagesFromLosesNothing(rows: seq<SentRow>)
    requires forall i :: 0 <= i < |rows| ==> JoinedOnRecipient(rows[i])
    ensures SentRowsOf(MessagesFrom(rows)) == rows
  {
    if rows != [] {
      MessagesFromLosesNothing(rows[1..]);
      assert MessagesFrom(rows)[1..] == MessagesFrom(rows[1..]);
    }
  }

  /** Reshaping the rows of `messagesTo` loses nothing the join did not already repeat. */
  lemma {:induction false} MessagesToLosesNothing(rows: seq<ReceivedRow>)
    requires forall i :: 0 <= i < |rows| ==> JoinedOnSender(rows[i])
    ensures ReceivedRowsOf(MessagesTo(rows)) == rows
  {
    if rows != [] {
      MessagesToLosesNothing(rows[1..]);
      assert MessagesTo(rows)[1..] == MessagesTo(rows[1..]);
    }
  }

  /**
   * Reshaping works row by row: the records of two result sets appended are
   * the records of each, appended.
   */
  lemma {:induction false} MessagesFromAppend(a: seq<SentRow>, b: seq<SentRow>)
    ensures MessagesFrom(a + b) == MessagesFrom(a) + MessagesFrom(b)
  {
    if a == [] {
      assert a + b == b;
    } else {
      assert (a + b)[0] == a[0] && (a + b)[1..] == a[1..] + b;
      calc {
        MessagesFrom(a + b);
        [ShapeSent(a[0])] + MessagesFrom(a[1..] + b);
        { MessagesFromAppend(a[1..], b); }
        [ShapeSent(a[0])] + (MessagesFrom(a[1..]) + MessagesFrom(b));
        MessagesFrom(a) + MessagesFrom(b);
      }
    }
  }

  /** The same holds for `messagesTo`. */
  lemma {:induction false} MessagesToAppend(a: seq<ReceivedRow>, b: seq<ReceivedRow>)
    ensures MessagesTo(a + b) == MessagesTo(a) + MessagesTo(b)
  {
    if a == [] {
      assert a + b == b;
    } else {
      assert (a + b)[0] == a[0] && (a + b)[1..] == a[1..] + b;
      calc {
        MessagesTo(a + b);
        [ShapeReceived(a[0])] + MessagesTo(a[1..] + b);
        { MessagesToAppend(a[1..], b); }
        [ShapeReceived(a[0])] + (MessagesTo(a[1..]) + MessagesTo(b));
        MessagesTo(a) + MessagesTo(b);
      }
    }
  }

  /** The row `SELECT password FROM users WHERE username = $1` returns. */
  datatype PasswordRow = PasswordRow(password: string)

  /** The row the login-timestamp update returns. */
  datatype LoginRow = LoginRow(username: string, lastLoginAt: Timestamp)

  /**
   * `authenticate`: false when no user has the name, otherwise whether the
   * password matches the stored hash. `compare` stands for `bcrypt.compare`.
   */
  function Authenticate(rows: seq<PasswordRow>, password: string, compare: (string, string) -> bool): (valid: bool)
    ensures valid ==> |rows| > 0
    ensures |rows| > 0 ==> (valid <==> compare(password, rows[0].password))
  {
    if |rows| > 0 then compare(password, rows[0].password) == true else false
  }

  /**
   * A registered user who gives the password that was hashed at registration
   * is authenticated, provided the hash comparison accepts its own hashes.
   */
  lemma RegisteredPasswordAuthenticates(password: string, hash: string -> string,
                                        compare: (string, string) -> bool)
    requires compare(password, hash(password))
    ensures Authenticate([PasswordRow(hash(password))], password, compare)
    ensures !Authenticate([], password, compare)
  {
  }

  /** `updateLoginTimestamp`: the updated row, or `NotFound` when no user has the name. */
  function UpdateLoginTimestamp(rows: seq<LoginRow>): (result: Result<LoginRow, ExpressError>)
    ensures result.Failure? <==> rows == []
    ensures result.Failure? ==> result.error == NotFound
    ensures result.Success? ==> result.value == rows[0]
  {
    if |rows| > 0 then Success(rows[0]) else Failure(NotFound)
  }
}
