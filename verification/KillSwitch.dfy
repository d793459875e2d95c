/**
  The mail kill switch: once the recipients of the mails logged in the rolling window reach the threshold, no mail is
  sent.
*/
module KillSwitch {
  import opened Positions
  import opened Recipients

  /** A row of sent_emails. */
  datatype SentEmail = SentEmail(to: Option<string>, cc: Option<string>, bcc: Option<string>, createdAt: int)
  {
    function Recipients(): nat {
      CountRecipients(to) + CountRecipients(cc) + CountRecipients(bcc)
    }
  }

  datatype Config = Config(period: nat, threshold: nat)

  /** The recipients of the rows written since start. */
  function RecipientsSince(rows: seq<SentEmail>, start: int): nat {
    if rows == [] then 0
    else
      var last := rows[|rows| - 1];
      RecipientsSince(rows[..|rows| - 1], start) + (if last.createdAt >= start then last.Recipients() else 0)
  }

  /** If counting fails the switch counts as active. */
  predicate Active(config: Config, rows: seq<SentEmail>, countable: bool, now: int) {
    !countable || RecipientsSince(rows, now - config.period) >= config.threshold
  }

  /** The row for one mail: the joined addresses stand in to or in bcc. */
  function EmailRow(joined: string, useBcc: bool, createdAt: int): SentEmail {
    SentEmail(if useBcc then None else Some(joined), None, if useBcc then Some(joined) else None, createdAt)
  }

  /** One mail to send: guarded at checkedAt, delivered and logged at createdAt, unless writing the log row fails. */
  datatype Mail = Mail(addresses: seq<string>, useBcc: bool, countable: bool, logged: bool, checkedAt: int,
                       createdAt: int)
  {
    function Row(): SentEmail {
      EmailRow(Join(addresses), useBcc, createdAt)
    }
  }

  function Handled(config: Config, rows: seq<SentEmail>, m: Mail): seq<SentEmail> {
    if Active(config, rows, m.countable, m.checkedAt) || !m.logged then rows else rows + [m.Row()]
  }

  class Mailer {
    const config: Config
    var sentEmails: seq<SentEmail>

    constructor (config: Config)
      ensures this.config == config && sentEmails == []
    {
      this.config := config;
      sentEmails := [];
    }

    /** A failure to write the row is passed over. */
    method LogSentEmail(toStr: string, useBcc: bool, createdAt: int, written: bool)
      modifies this
      ensures sentEmails == old(sentEmails)
              + if written then [EmailRow(toStr, useBcc, createdAt)] else []
    {
      if written {
        sentEmails := sentEmails + [EmailRow(toStr, useBcc, createdAt)];
      }
    }

    /** delivered: the envelope recipients handed to the mail server. */
    method SendTemplatedEmail(m: Mail) returns (delivered: seq<string>)
      modifies this
      ensures sentEmails == Handled(config, old(sentEmails), m)
      ensures delivered == if Active(config, old(sentEmails), m.countable, m.checkedAt) then [] else m.addresses
    {
      if Active(config, sentEmails, m.countable, m.checkedAt) {
        return [];
      }
      delivered := m.addresses;
      LogSentEmail(Join(m.addresses), m.useBcc, m.createdAt, m.logged);
    }
  }

  // ---- the rule, read off the rows ----------------------------------------------------------

  /** The recipients of one list are counted in the field they were written to, to or bcc, and in no other. */
  lemma {:induction false} RowMeans(m: Mail)
    ensures m.Row().cc.None? && m.Row().createdAt == m.createdAt
    ensures m.useBcc ==> m.Row().to.None? && m.Row().bcc == Some(Join(m.addresses))
    ensures !m.useBcc ==> m.Row().bcc.None? && m.Row().to == Some(Join(m.addresses))
  {
  }

  function Sum(numbers: seq<nat>): nat {
    if numbers == [] then 0 else Sum(numbers[..|numbers| - 1]) + numbers[|numbers| - 1]
  }

  /** What each row adds: the entries of to, cc and bcc, if it was written within the period. */
  function Counts(config: Config, rows: seq<SentEmail>, now: int): seq<nat> {
    seq(|rows|, i requires 0 <= i < |rows| =>
      if rows[i].createdAt < now - config.period then 0
      else CountRecipients(rows[i].to) + CountRecipients(rows[i].cc) + CountRecipients(rows[i].bcc))
  }

  /** Mails go out as long as the rows of the period add up to less than the threshold, and can be added up. */
  lemma {:induction false} ActiveMeans(config: Config, rows: seq<SentEmail>, countable: bool, now: int)
    ensures Active(config, rows, countable, now)
            <==> !countable || Sum(Counts(config, rows, now)) >= config.threshold
  {
    SumCounts(config, rows, now);
  }

  lemma {:induction false} CountsSnoc(config: Config, rows: seq<SentEmail>, now: int)
    requires rows != []
    ensures var (init, last) := (rows[..|rows| - 1], rows[|rows| - 1]);
            Counts(config, rows, now)
            == Counts(config, init, now) + [if last.createdAt >= now - config.period then last.Recipients() else 0]
  {
  }

  lemma {:induction false} SumSnoc(numbers: seq<nat>, n: nat)
    ensures Sum(numbers + [n]) == Sum(numbers) + n
  {
    assert (numbers + [n])[..|numbers|] == numbers;
  }

  lemma {:induction false} SumCounts(config: Config, rows: seq<SentEmail>, now: int)
    ensures Sum(Counts(config, rows, now)) == RecipientsSince(rows, now - config.period)
  {
    if rows != [] {
      var init, last := rows[..|rows| - 1], rows[|rows| - 1];
      SumCounts(config, init, now);
      CountsSnoc(config, rows, now);
      SumSnoc(Counts(config, init, now), if last.createdAt >= now - config.period then last.Recipients() else 0);
    }
  }

  // ---- the bound ----------------------------------------------------------------------------

  type Run = seq<Mail>

  function After(config: Config, run: Run): seq<SentEmail> {
    if run == [] then [] else Handled(config, After(config, run[..|run| - 1]), run[|run| - 1])
  }

  /** The mails are handled one after the other, none of them after now. */
  predicate Sequential(run: Run, now: int) {
    run == [] ||
    (var m := run[|run| - 1]; Sequential(run[..|run| - 1], m.checkedAt) && m.checkedAt <= m.createdAt <= now)
  }

  /** The mail gets past the switch, and falls into the window that ends at t. */
  predicate Counted(config: Config, before: Run, m: Mail, t: int) {
    !Active(config, After(config, before), m.countable, m.checkedAt) && t - config.period <= m.createdAt <= t
  }

  /** The addresses delivered to within the window that ends at t. */
  function DeliveredWithin(config: Config, run: Run, t: int): nat {
    if run == [] then 0
    else
      var (init, m) := (run[..|run| - 1], run[|run| - 1]);
      DeliveredWithin(config, init, t) + (if Counted(config, init, m, t) then |m.addresses| else 0)
  }

  /** Those of them whose log row could not be written. */
  function UnloggedWithin(config: Config, run: Run, t: int): nat {
    if run == [] then 0
    else
      var (init, m) := (run[..|run| - 1], run[|run| - 1]);
      UnloggedWithin(config, init, t) + (if Counted(config, init, m, t) && !m.logged then |m.addresses| else 0)
  }

  predicate PlainMail(m: Mail, largest: nat) {
    |m.addresses| <= largest && forall i :: 0 <= i < |m.addresses| ==> Plain(m.addresses[i])
  }

  /** The sequences meant: each mail is guarded after the one before was handled, and handled after its guard. */
  lemma {:induction false} SequentialMeans(run: Run, m: Mail, now: int)
    ensures Sequential([], now)
    ensures Sequential(run + [m], now) <==> Sequential(run, m.checkedAt) && m.checkedAt <= m.createdAt <= now
  {
    assert (run + [m])[..|run|] == run;
  }

  /** The mails meant: no more addresses than the largest, each of them one address and not blank. */
  lemma {:induction false} PlainMeans(m: Mail, largest: nat)
    ensures PlainMail(m, largest)
            <==> && |m.addresses| <= largest
                 && forall i :: 0 <= i < |m.addresses| ==> ',' !in m.addresses[i] && NotBlank(m.addresses[i])
  {
  }

  lemma {:induction false} RowRecipients(m: Mail, largest: nat)
    requires PlainMail(m, largest)
    ensures m.Row().Recipients() == |m.addresses|
  {
    CountRoundTrip(m.addresses);
  }

  /** What the log counts is what was delivered, but for the mails it does not hold. */
  lemma {:induction false} LogCounts(config: Config, run: Run, largest: nat, t: int)
    requires forall i :: 0 <= i < |run| ==> PlainMail(run[i], largest)
    requires Sequential(run, t)
    ensures RecipientsSince(After(config, run), t - config.period) + UnloggedWithin(config, run, t)
            == DeliveredWithin(config, run, t)
  {
    if run != [] {
      var init, m := run[..|run| - 1], run[|run| - 1];
      LogCounts(config, init, largest, t);
      RowRecipients(m, largest);
    }
  }

  /** As the window moves on, logged deliveries only leave it. */
  lemma {:induction false} WindowMoves(config: Config, run: Run, now: int, t: int)
    requires Sequential(run, now) && now <= t
    ensures DeliveredWithin(config, run, t) - UnloggedWithin(config, run, t)
            <= DeliveredWithin(config, run, now) - UnloggedWithin(config, run, now)
  {
    if run != [] {
      WindowMoves(config, run[..|run| - 1], now, t);
    }
  }

  /**
    The bound: in every sequence of mails, over every window that ends at any time, the number of addresses delivered
    to stays below the threshold plus the largest single mail, plus the deliveries in the window that went unlogged.
  */
  lemma {:induction false} DeliveriesBounded(config: Config, run: Run, now: int, largest: nat, t: int)
    requires Sequential(run, now) && forall i :: 0 <= i < |run| ==> PlainMail(run[i], largest)
    ensures var (delivered, unlogged) := (DeliveredWithin(config, run, t), UnloggedWithin(config, run, t));
            delivered == unlogged || delivered <= config.threshold - 1 + largest + unlogged
  {
    if run != [] {
      var init, m := run[..|run| - 1], run[|run| - 1];
      DeliveriesBounded(config, init, m.checkedAt, largest, t);
      if Counted(config, init, m, t) {
        LogCounts(config, init, largest, m.checkedAt);
        WindowMoves(config, init, m.checkedAt, t);
      }
    }
  }

  /** A switch that has counted nothing lets a mail through. */
  lemma {:induction false} FirstPasses(config: Config, m: Mail, t: int)
    requires config.threshold >= 1 && m.countable && m.logged && PlainMail(m, |m.addresses|)
    requires m.checkedAt <= m.createdAt <= t <= m.createdAt + config.period
    ensures Sequential([m], t) && UnloggedWithin(config, [m], t) == 0
    ensures DeliveredWithin(config, [m], t) == |m.addresses|
    ensures RecipientsSince(After(config, [m]), t - config.period) == |m.addresses|
  {
    assert [] + [m] == [m];
    LogCounts(config, [m], |m.addresses|, t);
  }

  /** The bound is reached: a switch one short of its threshold lets the largest mail through. */
  lemma {:induction false} BoundReached(config: Config, first: Mail, second: Mail)
    requires config.threshold >= 1 && PlainMail(first, config.threshold - 1)
             && |first.addresses| == config.threshold - 1
    requires PlainMail(second, |second.addresses|) && first.countable && second.countable
    requires first.logged && second.logged && first.checkedAt <= first.createdAt <= second.checkedAt
    requires second.checkedAt <= second.createdAt <= first.createdAt + config.period
    ensures Sequential([first, second], second.createdAt)
    ensures UnloggedWithin(config, [first, second], second.createdAt) == 0
    ensures DeliveredWithin(config, [first, second], second.createdAt) == config.threshold - 1 + |second.addresses|
  {
    FirstPasses(config, first, second.checkedAt);
    FirstPasses(config, first, second.createdAt);
    assert [first] + [second] == [first, second];
  }
}
