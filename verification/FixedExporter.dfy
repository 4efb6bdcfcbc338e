/**
  The older exporter (export_metrics_prometheus_fixed.c): one `snprintf` into a local buffer, then
  `strncpy` into the caller's.
 */
module FixedExporter {
  import opened CStrings
  import opened TextFormat
  import opened MetricsRecord
  import opened Exposition

  const LOCAL_SIZE := 4096

  /** What the local buffer keeps of a text. */
  function Kept(text: string): string { Cut(text, LOCAL_SIZE) }

  /** What the caller's buffer holds: the text cut to the local buffer and to its own, then NUL. */
  function Delivered(text: string, size: nat): (r: string)
    requires size >= 1
  {
    seq(size, k requires 0 <= k < size => if k < size - 1 && k < |Kept(text)| then Kept(text)[k] else NUL)
  }

  /** `export_metrics_prometheus_format`, older version. */
  method ExportFixed(m: Metrics, tenant: string, output: array<char>, size: nat)
    requires 1 <= size <= output.Length && NUL !in tenant
    modifies output
    ensures output[..size] == Delivered(FixedText(m, tenant), size)
    ensures var text := FixedText(m, tenant);
      forall k :: 0 <= k < size ==> output[k] == if k < |text| && k < 4095 && k < size - 1 then text[k] else '\0'
    ensures output[size..] == old(output[size..])
  {
    hide FixedText, Cut;
    var text := FixedText(m, tenant);
    FixedTextHasNoNul(m, tenant);
    var local := new char[LOCAL_SIZE](_ => NUL);
    Format(local, text);
    assert Holds(local, Kept(text));
    Strncpy(output, local, Kept(text), size - 1);
    output[size - 1] := NUL;
    DeliveredEach(text, size);
    assert forall k :: 0 <= k < size ==> output[..size][k] == output[k];
  }

  lemma DeliveredEach(text: string, size: nat)
    requires size >= 1
    ensures forall k :: 0 <= k < size ==>
      Delivered(text, size)[k] == if k < |text| && k < 4095 && k < size - 1 then text[k] else '\0'
  {
    assert |Kept(text)| == (if |text| < 4096 then |text| else 4095);
    assert forall k :: 0 <= k < |Kept(text)| ==> Kept(text)[k] == text[k];
  }

  lemma {:induction false} RawSamplesHaveNoNul(m: Metrics, tenant: string, fields: seq<Field>)
    requires NUL !in tenant
    ensures NUL !in Render(RawSamples(m, tenant, fields))
  {
    if fields != [] {
      hide RenderLine, RawShown, Name;
      var s := TenantSample(Name(fields[0]), tenant, RawShown(m, fields[0]));
      var rest := RawSamples(m, tenant, fields[1..]);
      RawSamplesHaveNoNul(m, tenant, fields[1..]);
      NamesAreNames(fields[0]);
      LineHasNoNul(s);
      RenderConcat([s], rest);
      RenderOne(s);
    }
  }

  lemma FixedTextHasNoNul(m: Metrics, tenant: string)
    requires NUL !in tenant
    ensures NUL !in FixedText(m, tenant)
  {
    hide Render, RawSamples;
    RawSamplesHaveNoNul(m, tenant, ORDER);
    FixedLineHasNoNul();
  }

  lemma FixedLineHasNoNul()
    ensures NUL !in FIXED_LINE + "\n"
  {
    assert forall i :: 0 <= i < |FIXED_LINE| ==> FIXED_LINE[i] != NUL;
  }

  /** A text arrives whole exactly when it fits both buffers with its NUL. */
  lemma DeliveredWhole(text: string, size: nat)
    requires size >= 1 && NUL !in text
    ensures text + [NUL] <= Delivered(text, size) <==> |text| < 4096 && |text| < size
  {
    var d := Delivered(text, size);
    if |text| < LOCAL_SIZE && |text| < size {
      assert Kept(text) == text;
      assert d[..|text| + 1] == text + [NUL];
    } else if |text| < size {
      var k := LOCAL_SIZE - 1;
      assert |Kept(text)| == k && d[k] == NUL;
      assert (text + [NUL])[k] == text[k] && text[k] in text;
    }
  }

  /**
    Any record arrives whole exactly when the caller's buffer has room for it: for the tenants the
    newer exporter accepts, the local buffer never cuts anything.
   */
  lemma FixedDelivery(m: Metrics, tenant: string, size: nat)
    requires size >= 1 && NUL !in tenant && |tenant| <= 50
    ensures |FixedText(m, tenant)| < 4096
    ensures FixedText(m, tenant) + [NUL] <= Delivered(FixedText(m, tenant), size) <==> |FixedText(m, tenant)| < size
  {
    hide FixedText, Delivered;
    FixedTextWidth(m, tenant);
    FixedTextHasNoNul(m, tenant);
    DeliveredWhole(FixedText(m, tenant), size);
  }
}
