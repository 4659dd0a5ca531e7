/** Names of the message queues (src/ipc/queue_names.cpp). */
module QueueNames {
  import opened Commands
  import opened Buffers
  import opened Messages

  const SERVER_QUEUE: string := "/css223_reservation_requests"
  const CLIENT_PREFIX: string := "/css223_client_"
  const REPLY_SUFFIX: string := "_reply"

  function Digit(d: nat): char
    requires d < 10
  {
    "0123456789"[d]
  }

  /** std::to_string of an unsigned number. */
  function Decimal(n: nat): (s: string)
    ensures s != [] && forall i | 0 <= i < |s| :: '0' <= s[i] <= '9'
  {
    if n < 10 then [Digit(n)] else Decimal(n / 10) + [Digit(n % 10)]
  }

  function ReplyQueueName(client: Word): string {
    CLIENT_PREFIX + Decimal(client) + REPLY_SUFFIX
  }

  /** is_valid_posix_queue_name, clause by clause. */
  predicate IsValidQueueName(name: string) {
    if name == [] || name[0] != '/' || |name| < 2 then false
    else if |name| >= QUEUE_NAME_BYTES then false
    else if '\0' in name then false
    else '/' !in name[1..]
  }

  lemma {:induction false} DecimalInjective(m: nat, n: nat)
    requires Decimal(m) == Decimal(n)
    ensures m == n
    decreases m
  {
    var s := Decimal(m);
    var last := s[|s| - 1];
    if m >= 10 {
      assert Decimal(m / 10) == s[..|s| - 1] && last == Digit(m % 10);
    }
    if n >= 10 {
      assert Decimal(n / 10) == s[..|s| - 1] && last == Digit(n % 10);
    }
    if m >= 10 && n >= 10 {
      DecimalInjective(m / 10, n / 10);
    }
  }

  lemma {:induction false} DecimalLength(n: nat, bound: nat, digits: nat)
    requires digits > 0 && n < bound && bound == Power10(digits)
    ensures |Decimal(n)| <= digits
    decreases digits
  {
    if n >= 10 {
      assert digits > 1;
      DecimalLength(n / 10, bound / 10, digits - 1);
    }
  }

  function Power10(k: nat): nat {
    if k == 0 then 1 else 10 * Power10(k - 1)
  }

  /** Different clients never share a reply queue. */
  lemma ReplyQueueNameInjective(c: Word, d: Word)
    requires ReplyQueueName(c) == ReplyQueueName(d)
    ensures c == d
  {
    var n := |ReplyQueueName(c)| - |REPLY_SUFFIX|;
    assert Decimal(c) == ReplyQueueName(c)[|CLIENT_PREFIX|..n];
    assert Decimal(d) == ReplyQueueName(d)[|CLIENT_PREFIX|..n];
    DecimalInjective(c, d);
  }

  /** Every reply queue name is a valid queue name, differs from the server's and fits the name field of a
      request: written there and read back it is unchanged. */
  lemma ReplyQueueNameSound(c: Word, buf: seq<char>)
    requires |buf| == QUEUE_NAME_BYTES
    ensures IsValidQueueName(ReplyQueueName(c)) && ReplyQueueName(c) != SERVER_QUEUE
    ensures ToText(Written(buf, ReplyQueueName(c))) == ReplyQueueName(c)
  {
    var name := ReplyQueueName(c);
    assert Power10(10) == 10000000000;
    DecimalLength(c, Power10(10), 10);
    forall i | 0 <= i < |name| ensures name[i] != '\0' && (i > 0 ==> name[i] != '/') {
      var p := |CLIENT_PREFIX|;
      if p <= i < p + |Decimal(c)| {
        assert name[i] == Decimal(c)[i - p];
      }
    }
    assert name[8] == CLIENT_PREFIX[8] == 'c' && SERVER_QUEUE[8] == 'r';
    RoundTrip(buf, name);
  }

  /** A valid queue name is a slash and one to sixty-two characters that are neither slashes nor NUL, and nothing
      else is. */
  lemma ValidNames(name: string)
    ensures IsValidQueueName(name) <==>
              exists rest: string :: name == "/" + rest && 1 <= |rest| <= 62 && forall c | c in rest :: c != '/' && c != '\0'
  {
    if IsValidQueueName(name) {
      var rest := name[1..];
      assert name == "/" + rest;
      assert forall c | c in rest :: c in name;
    }
    forall rest: string | name == "/" + rest && 1 <= |rest| <= 62 && forall c | c in rest :: c != '/' && c != '\0'
      ensures IsValidQueueName(name)
    {
      assert name[1..] == rest;
    }
  }

  /** A valid name fits the 64-byte buffers with its terminator, so the kernel sees the name that was checked. */
  lemma ValidNameFits(name: string, buf: seq<char>)
    requires IsValidQueueName(name) && |buf| == 64
    ensures ToText(Written(buf, name)) == name
  {
    RoundTrip(buf, name);
  }

  lemma ServerQueueValid()
    ensures IsValidQueueName(SERVER_QUEUE)
  {
    assert |SERVER_QUEUE| == 28;
    assert forall i | 0 < i < 28 :: SERVER_QUEUE[i] != '/' && SERVER_QUEUE[i] != '\0';
  }

  /** The number a string of digits stands for. */
  function Value(s: string): int {
    if s == [] then 0 else 10 * Value(s[..|s| - 1]) + (s[|s| - 1] as int - '0' as int)
  }

  /** The decimal numeral of a number reads back as that number, and has no leading zero. */
  lemma {:induction false} DecimalValue(n: nat)
    ensures Value(Decimal(n)) == n && (n > 0 ==> Decimal(n)[0] != '0')
  {
    var s := Decimal(n);
    assert s == s[..|s| - 1] + [s[|s| - 1]];
    if n >= 10 {
      assert s[..|s| - 1] == Decimal(n / 10);
      DecimalValue(n / 10);
    } else {
      assert s[..|s| - 1] == [];
    }
  }
}
