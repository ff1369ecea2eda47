/** Queue names, as the gateway and the publisher build them. */
module QueueNames {
  import opened Decimal

  datatype QueueType = Inbound | Debug | Discard | Outbound

  function Suffix(t: QueueType): string {
    match t
    case Inbound => "inbound"
    case Debug => "debug"
    case Discard => "discard"
    case Outbound => "outbound"
  }

  predicate IsImei(s: string) {
    |s| == 15 && AllDigits(s)
  }

  function GatewayQueueName(prefix: string, region: string, imei: string, t: QueueType): string {
    (if prefix != [] then prefix + "." else []) + region + "." + imei + "_" + Suffix(t)
  }

  function PublisherQueueName(region: string, imei: string, queueType: string): string {
    region + "." + imei + "_" + queueType
  }

  lemma {:induction false} SuffixesDiffer(t: QueueType, u: QueueType)
    ensures '_' !in Suffix(t)
    ensures Suffix(t) == Suffix(u) <==> t == u
  {
    assert |Suffix(Inbound)| == 7 && |Suffix(Debug)| == 5 && |Suffix(Discard)| == 7 && |Suffix(Outbound)| == 8;
    assert Suffix(Inbound)[0] != Suffix(Discard)[0];
  }

  /** For IMEIs of fifteen digits a queue name determines region, device and queue type. */
  lemma {:induction false} PublisherNameIdentifies(
      region: string, imei: string, t: QueueType, region': string, imei': string, t': QueueType)
    requires IsImei(imei) && IsImei(imei')
    ensures PublisherQueueName(region, imei, Suffix(t)) == PublisherQueueName(region', imei', Suffix(t'))
      <==> region == region' && imei == imei' && t == t'
  {
    SuffixesDiffer(t, t');
    SuffixesDiffer(t', t);
    if PublisherQueueName(region, imei, Suffix(t)) == PublisherQueueName(region', imei', Suffix(t')) {
      var owner, owner' := region + "." + imei, region' + "." + imei';
      SplitAtLast(owner, Suffix(t), owner', Suffix(t'), '_');
      assert region == owner[..|owner| - 16] && region' == owner'[..|owner'| - 16];
      assert imei == owner[|owner| - 15..] && imei' == owner'[|owner'| - 15..];
    }
  }

  /** The same for the gateway's names under one prefix. */
  lemma {:induction false} GatewayNameIdentifies(prefix: string,
      region: string, imei: string, t: QueueType, region': string, imei': string, t': QueueType)
    requires IsImei(imei) && IsImei(imei')
    ensures GatewayQueueName(prefix, region, imei, t) == GatewayQueueName(prefix, region', imei', t')
      <==> region == region' && imei == imei' && t == t'
  {
    var p := if prefix != [] then prefix + "." else [];
    var n, n' := PublisherQueueName(region, imei, Suffix(t)), PublisherQueueName(region', imei', Suffix(t'));
    assert GatewayQueueName(prefix, region, imei, t) == p + n;
    assert GatewayQueueName(prefix, region', imei', t') == p + n';
    assert (p + n)[|p|..] == n && (p + n')[|p|..] == n';
    PublisherNameIdentifies(region, imei, t, region', imei', t');
  }

  /** Within one gateway the name determines device and type, whatever the device is called. */
  lemma {:induction false} NameIdentifiesWithinRegion(
      prefix: string, region: string, imei: string, t: QueueType, imei': string, t': QueueType)
    ensures GatewayQueueName(prefix, region, imei, t) == GatewayQueueName(prefix, region, imei', t')
      <==> imei == imei' && t == t'
  {
    SuffixesDiffer(t, t');
    SuffixesDiffer(t', t);
    var p := (if prefix != [] then prefix + "." else []) + region + ".";
    if GatewayQueueName(prefix, region, imei, t) == GatewayQueueName(prefix, region, imei', t') {
      SplitAtLast(p + imei, Suffix(t), p + imei', Suffix(t'), '_');
      assert imei == (p + imei)[|p|..] == (p + imei')[|p|..] == imei';
    }
  }

  /** Gateway and publisher name the same queue alike exactly when there is no prefix. */
  lemma {:induction false} NamesAgree(prefix: string, region: string, imei: string, t: QueueType)
    ensures GatewayQueueName(prefix, region, imei, t) == PublisherQueueName(region, imei, Suffix(t)) <==> prefix == []
  {
    var n := PublisherQueueName(region, imei, Suffix(t));
    var p := if prefix != [] then prefix + "." else [];
    assert GatewayQueueName(prefix, region, imei, t) == p + n;
  }

  /** No other region, device or type has this publisher name. */
  ghost predicate NameIsUnique(region: string, imei: string, t: QueueType) {
    forall region': string, imei': string, t': QueueType ::
      PublisherQueueName(region', imei', Suffix(t')) == PublisherQueueName(region, imei, Suffix(t))
      ==> region' == region && imei' == imei && t' == t
  }

  lemma {:induction false} OneSeparator(a: string, b: string, a': string, b': string, sep: char)
    requires a + [sep] + b == a' + [sep] + b' && sep !in a && sep !in b
    ensures a == a' && b == b'
  {
    var s := a + [sep] + b;
    forall k | 0 <= k < |s| && k != |a| ensures s[k] != sep {
      assert s[k] == if k < |a| then a[k] else b[k - |a| - 1];
      assert if k < |a| then a[k] in a else b[k - |a| - 1] in b;
    }
    assert s[|a'|] == sep;
    assert s[..|a|] == a && s[..|a'|] == a' && s[|a| + 1..] == b && s[|a'| + 1..] == b';
  }

  lemma {:induction false} DotFreeIsUnique(
      region: string, imei: string, t: QueueType, region': string, imei': string, t': QueueType)
    requires '.' !in region && '.' !in imei
    requires PublisherQueueName(region', imei', Suffix(t')) == PublisherQueueName(region, imei, Suffix(t))
    ensures region' == region && imei' == imei && t' == t
  {
    SuffixesDiffer(t, t');
    SuffixesDiffer(t', t);
    SplitAtLast(region + "." + imei, Suffix(t), region' + "." + imei', Suffix(t'), '_');
    OneSeparator(region, imei, region', imei', '.');
  }

  /** A dot moves the border between region and device. */
  lemma {:induction false} DotIsShared(region: string, imei: string, t: QueueType)
    requires '.' in region || '.' in imei
    ensures !NameIsUnique(region, imei, t)
  {
    var name := PublisherQueueName(region, imei, Suffix(t));
    if '.' in region {
      var i :| 0 <= i < |region| && region[i] == '.';
      assert region == region[..i] + "." + region[i + 1..];
      var other := region[i + 1..] + "." + imei;
      assert region[..i] + "." + other == region + "." + imei;
      assert PublisherQueueName(region[..i], other, Suffix(t)) == name;
    } else {
      var i :| 0 <= i < |imei| && imei[i] == '.';
      assert imei == imei[..i] + "." + imei[i + 1..];
      var other := region + "." + imei[..i];
      assert other + "." + imei[i + 1..] == region + "." + imei;
      assert PublisherQueueName(other, imei[i + 1..], Suffix(t)) == name;
    }
  }

  /** Whatever the names look like, a queue is shared exactly when there is a dot in the region
      or in the device. */
  lemma {:induction false} NameIsUniqueIff(region: string, imei: string, t: QueueType)
    ensures NameIsUnique(region, imei, t) <==> '.' !in region && '.' !in imei
  {
    if '.' in region || '.' in imei {
      DotIsShared(region, imei, t);
    } else {
      forall region': string, imei': string, t': QueueType
        | PublisherQueueName(region', imei', Suffix(t')) == PublisherQueueName(region, imei, Suffix(t))
        ensures region' == region && imei' == imei && t' == t
      {
        DotFreeIsUnique(region, imei, t, region', imei', t');
      }
    }
  }

  /** Without the fifteen-digit shape, different devices can share a queue. */
  lemma {:induction false} ShortImeisCanCollide()
    ensures PublisherQueueName("eu", "1.2", "debug") == PublisherQueueName("eu.1", "2", "debug")
  {
  }
}
