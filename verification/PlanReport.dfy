/**
 * versao2.py's text export of the weekly plan: a header with the generation
 * time, then one block per day listing every meal slot, then the general
 * notes. The generation time is a parameter (the source reads the clock).
 */
module PlanReport {
  import opened Wrappers
  import opened Text
  import opened Meals

  /** The six meal slots of versao2.py, in declaration order. */
  const Refeicoes: seq<string> := ["Café da manhã 🍳", "Lanche da manhã 🍎", "Almoço 🍲", "Lanche da tarde 🥪", "Jantar 🥗", "Ceia/Extra 🌙"]

  /** The plan as stored: day to meal slot to free text, plus the general notes
      kept under the key "observacoes". A missing key is absent from the map,
      or `None`. */
  datatype PlanData = PlanData(days: map<string, map<string, string>>, observacoes: Option<string>)

  const Unfilled: string := "Não preenchido"
  const NoNotes: string := "Nenhuma"

  /** `dados.get(dia, {}).get(refeicao, "")`. */
  function MealText(dados: PlanData, dia: string, refeicao: string): (text: string)
    ensures dia in dados.days && refeicao in dados.days[dia] ==> text == dados.days[dia][refeicao]
    ensures !(dia in dados.days && refeicao in dados.days[dia]) ==> text == ""
  {
    if dia in dados.days && refeicao in dados.days[dia] then dados.days[dia][refeicao] else ""
  }

  /** `texto or placeholder`: the empty text gives way to the placeholder. */
  function OrElse(text: string, placeholder: string): (shown: string)
    ensures text != "" ==> shown == text
    ensures text == "" ==> shown == placeholder
  {
    if text == "" then placeholder else text
  }

  function MealRow(dados: PlanData, dia: string, refeicao: string): string {
    "  - " + refeicao + ": " + OrElse(MealText(dados, dia, refeicao), Unfilled)
  }

  /** The rows of one day's meal slots, in declaration order. */
  function MealRows(dados: PlanData, dia: string, refeicoes: seq<string>): (rows: seq<string>)
    ensures |rows| == |refeicoes|
  {
    if refeicoes == [] then [] else MealRows(dados, dia, refeicoes[..|refeicoes| - 1]) + [MealRow(dados, dia, refeicoes[|refeicoes| - 1])]
  }

  /** Row `r` is the row of slot `r`. */
  lemma {:induction false} MealRowsAt(dados: PlanData, dia: string, refeicoes: seq<string>)
    ensures forall r :: 0 <= r < |refeicoes| ==> MealRows(dados, dia, refeicoes)[r] == MealRow(dados, dia, refeicoes[r])
  {
    if refeicoes != [] {
      var init := refeicoes[..|refeicoes| - 1];
      MealRowsAt(dados, dia, init);
      forall r | 0 <= r < |init| ensures MealRows(dados, dia, refeicoes)[r] == MealRow(dados, dia, refeicoes[r]) {
        assert refeicoes[r] == init[r];
      }
    }
  }

  /** One day: its name in upper case, 20 dashes, its meal rows, a blank entry. */
  function DayBlock(dados: PlanData, dia: string): seq<string> {
    ["📅 " + Upper(dia), Repeat('-', 20)] + MealRows(dados, dia, Refeicoes) + [""]
  }

  /** The day blocks of `dias`, in order. */
  function DayBlocks(dados: PlanData, dias: seq<string>): seq<string> {
    if dias == [] then [] else DayBlocks(dados, dias[..|dias| - 1]) + DayBlock(dados, dias[|dias| - 1])
  }

  function NotesText(dados: PlanData): string {
    OrElse(dados.observacoes.GetOr(""), NoNotes)
  }

  /** The report entry by entry. Each entry is written followed by a newline;
      a slot text or the notes may themselves hold newlines, so one entry can
      span several lines of the text. */
  function ReportLines(generatedAt: string, dados: PlanData): seq<string> {
    ["Plano Alimentar Semanal - Gerado em: " + generatedAt, Repeat('=', 50), ""]
      + DayBlocks(dados, DiasSemana)
      + ["📝 Observações Gerais:", NotesText(dados)]
  }

  /** Each entry followed by a newline. */
  function JoinLines(lines: seq<string>): string {
    if lines == [] then "" else JoinLines(lines[..|lines| - 1]) + (lines[|lines| - 1] + "\n")
  }

  lemma JoinLinesSnoc(lines: seq<string>, line: string)
    ensures JoinLines(lines + [line]) == JoinLines(lines) + (line + "\n")
  {
    assert (lines + [line])[..|lines|] == lines;
  }

  lemma Associative(a: string, b: string, c: string)
    ensures a + (b + c) == (a + b) + c
  {
  }

  lemma LinesAssociative(a: seq<string>, b: seq<string>, c: seq<string>)
    ensures a + (b + c) == (a + b) + c
  {
  }

  /** Writing one more entry and a newline to the report text is one more
      entry of the report. */
  lemma WriteLine(report: string, lines: seq<string>, line: string)
    requires report == JoinLines(lines)
    ensures report + (line + "\n") == JoinLines(lines + [line])
  {
    JoinLinesSnoc(lines, line);
  }

  /** The same for an empty entry. */
  lemma WriteBlankLine(report: string, lines: seq<string>)
    requires report == JoinLines(lines)
    ensures report + "\n" == JoinLines(lines + [""])
  {
    JoinLinesSnoc(lines, "");
    assert "" + "\n" == "\n";
  }

  lemma TakeAll(s: seq<string>)
    ensures s[..|s|] == s && s[..0] == []
  {
  }

  lemma MealRowsSnoc(dados: PlanData, dia: string, r: nat)
    requires r < |Refeicoes|
    ensures MealRows(dados, dia, Refeicoes[..r + 1]) == MealRows(dados, dia, Refeicoes[..r]) + [MealRow(dados, dia, Refeicoes[r])]
  {
    assert Refeicoes[..r + 1][..r] == Refeicoes[..r];
  }

  lemma DayBlocksSnoc(dados: PlanData, d: nat)
    requires d < |DiasSemana|
    ensures DayBlocks(dados, DiasSemana[..d + 1]) == DayBlocks(dados, DiasSemana[..d]) + DayBlock(dados, DiasSemana[d])
  {
    assert DiasSemana[..d + 1][..d] == DiasSemana[..d];
  }

  /** `gerar_relatorio_txt`, with the time of generation as `generatedAt`. */
  method RenderReport(generatedAt: string, dados: PlanData) returns (report: string)
    ensures report == JoinLines(ReportLines(generatedAt, dados))
  {
    var header := "Plano Alimentar Semanal - Gerado em: " + generatedAt;
    ghost var lines: seq<string> := [];
    WriteLine("", lines, header);
    report := header + "\n";
    lines := lines + [header];
    var rule := Repeat('=', 50);
    WriteLine(report, lines, rule);
    WriteLine(report + (rule + "\n"), lines + [rule], "");
    assert rule + "\n\n" == (rule + "\n") + ("" + "\n");
    Associative(report, rule + "\n", "" + "\n");
    report := report + (rule + "\n\n");
    assert lines + [rule] + [""] == [header, rule, ""];
    ghost var preamble := [header, rule, ""];
    lines := preamble;
    TakeAll(DiasSemana);
    for d := 0 to |DiasSemana|
      invariant lines == preamble + DayBlocks(dados, DiasSemana[..d])
      invariant report == JoinLines(lines)
    {
      var dia := DiasSemana[d];
      ghost var start := lines;
      var heading := "📅 " + Upper(dia);
      var dashes := Repeat('-', 20);
      WriteLine(report, lines, heading);
      report := report + (heading + "\n");
      lines := lines + [heading];
      WriteLine(report, lines, dashes);
      report := report + (dashes + "\n");
      LinesAssociative(start, [heading], [dashes]);
      lines := lines + [dashes];
      ghost var block := [heading, dashes];
      assert [heading] + [dashes] == block;
      TakeAll(Refeicoes);
      for r := 0 to |Refeicoes|
        invariant block == [heading, dashes] + MealRows(dados, dia, Refeicoes[..r])
        invariant lines == start + block
        invariant report == JoinLines(lines)
      {
        var refeicao := Refeicoes[r];
        var texto := MealText(dados, dia, refeicao);
        ghost var row := MealRow(dados, dia, refeicao);
        WriteLine(report, lines, row);
        report := report + ("  - " + refeicao + ": " + OrElse(texto, Unfilled) + "\n");
        MealRowsSnoc(dados, dia, r);
        LinesAssociative([heading, dashes], MealRows(dados, dia, Refeicoes[..r]), [row]);
        LinesAssociative(start, block, [row]);
        lines := lines + [row];
        block := block + [row];
      }
      TakeAll(Refeicoes);
      WriteBlankLine(report, lines);
      report := report + "\n";
      LinesAssociative(start, block, [""]);
      lines := lines + [""];
      block := block + [""];
      assert block == DayBlock(dados, dia);
      DayBlocksSnoc(dados, d);
      LinesAssociative(preamble, DayBlocks(dados, DiasSemana[..d]), block);
    }
    TakeAll(DiasSemana);
    var observacoes := dados.observacoes.GetOr("");
    var notesHeading := "📝 Observações Gerais:";
    WriteLine(report, lines, notesHeading);
    WriteLine(report + (notesHeading + "\n"), lines + [notesHeading], NotesText(dados));
    Associative(report, notesHeading + "\n", NotesText(dados) + "\n");
    report := report + (notesHeading + "\n" + OrElse(observacoes, NoNotes) + "\n");
    assert lines + [notesHeading] + [NotesText(dados)] == ReportLines(generatedAt, dados);
  }

  // ---------------------------------------------------------------------------
  // The layout of the report

  /** One day block: the heading, the dashes, the six slot rows in order
      and the blank entry. */
  lemma DayBlockShape(dados: PlanData, dia: string)
    ensures var block := DayBlock(dados, dia);
      && |block| == 9
      && block[0] == "📅 " + Upper(dia) && block[1] == Repeat('-', 20) && block[8] == ""
      && forall r :: 0 <= r < 6 ==> block[2 + r] == MealRow(dados, dia, Refeicoes[r])
  {
    MealRowsAt(dados, dia, Refeicoes);
  }

  lemma {:induction false} DayBlocksLength(dados: PlanData, dias: seq<string>)
    ensures |DayBlocks(dados, dias)| == 9 * |dias|
  {
    if dias != [] {
      DayBlocksLength(dados, dias[..|dias| - 1]);
    }
  }

  /** Entry `k` of the block of day `d` is entry `9 * d + k` of the blocks. */
  lemma {:induction false} DayBlocksAt(dados: PlanData, dias: seq<string>, d: int, k: int)
    requires 0 <= d < |dias| && 0 <= k < 9
    ensures |DayBlocks(dados, dias)| == 9 * |dias|
    ensures DayBlocks(dados, dias)[9 * d + k] == DayBlock(dados, dias[d])[k]
  {
    var init := dias[..|dias| - 1];
    DayBlocksLength(dados, dias);
    DayBlocksLength(dados, init);
    if d < |init| {
      DayBlocksAt(dados, init, d, k);
      assert init[d] == dias[d];
    }
  }

  /** The report has 68 entries. It opens with the title and the generation
      time, 50 `=` and a blank entry, and closes with the notes heading and
      the notes, or "Nenhuma" when they are missing or empty. */
  lemma ReportFrame(generatedAt: string, dados: PlanData)
    ensures var lines := ReportLines(generatedAt, dados);
      && |lines| == 68
      && lines[0] == "Plano Alimentar Semanal - Gerado em: " + generatedAt
      && lines[1] == Repeat('=', 50) && lines[2] == ""
      && lines[66] == "📝 Observações Gerais:"
      && lines[67] == OrElse(dados.observacoes.GetOr(""), NoNotes)
  {
    DayBlocksLength(dados, DiasSemana);
  }

  /** Day `d` of the week, Monday first, opens at entry 3 + 9d with its name
      in upper case and 20 dashes, and ends with a blank entry. */
  lemma ReportDayLines(generatedAt: string, dados: PlanData, d: int)
    requires 0 <= d < |DiasSemana|
    ensures var lines := ReportLines(generatedAt, dados);
      && |lines| == 68
      && lines[3 + 9 * d] == "📅 " + Upper(DiasSemana[d])
      && lines[3 + 9 * d + 1] == Repeat('-', 20)
      && lines[3 + 9 * d + 8] == ""
  {
    var blocks := DayBlocks(dados, DiasSemana);
    DayBlocksAt(dados, DiasSemana, d, 0);
    DayBlocksAt(dados, DiasSemana, d, 1);
    DayBlocksAt(dados, DiasSemana, d, 8);
    DayBlockShape(dados, DiasSemana[d]);
    var lines := ReportLines(generatedAt, dados);
    assert lines[3 + 9 * d] == blocks[9 * d];
    assert lines[3 + 9 * d + 1] == blocks[9 * d + 1];
    assert lines[3 + 9 * d + 8] == blocks[9 * d + 8];
  }

  /** Slot `r` of day `d` is entry 3 + 9d + 2 + r: the slot's name and its
      text, or "Não preenchido" when the text is missing or empty. */
  lemma ReportMealLine(generatedAt: string, dados: PlanData, d: int, r: int)
    requires 0 <= d < |DiasSemana| && 0 <= r < |Refeicoes|
    ensures var lines := ReportLines(generatedAt, dados);
      && |lines| == 68
      && lines[3 + 9 * d + 2 + r] == "  - " + Refeicoes[r] + ": " + OrElse(MealText(dados, DiasSemana[d], Refeicoes[r]), Unfilled)
  {
    var blocks := DayBlocks(dados, DiasSemana);
    DayBlocksAt(dados, DiasSemana, d, 2 + r);
    DayBlockShape(dados, DiasSemana[d]);
    var lines := ReportLines(generatedAt, dados);
    assert lines[3 + 9 * d + 2 + r] == blocks[9 * d + (2 + r)];
  }

  /** The report reads the plan only through the lookups of the seven days'
      six slots and of the notes: plans that agree on those, whatever else
      they hold, give the same report. */
  lemma {:induction false} DayBlocksDependOnlyOnLookups(a: PlanData, b: PlanData, dias: seq<string>)
    requires forall i, r :: 0 <= i < |dias| && 0 <= r < |Refeicoes| ==> MealText(a, dias[i], Refeicoes[r]) == MealText(b, dias[i], Refeicoes[r])
    ensures DayBlocks(a, dias) == DayBlocks(b, dias)
  {
    if dias != [] {
      var init := dias[..|dias| - 1];
      var dia := dias[|dias| - 1];
      forall i, r | 0 <= i < |init| && 0 <= r < |Refeicoes| ensures MealText(a, init[i], Refeicoes[r]) == MealText(b, init[i], Refeicoes[r]) {
        assert init[i] == dias[i];
      }
      DayBlocksDependOnlyOnLookups(a, b, init);
      MealRowsAt(a, dia, Refeicoes);
      MealRowsAt(b, dia, Refeicoes);
      assert MealRows(a, dia, Refeicoes) == MealRows(b, dia, Refeicoes);
    }
  }

  lemma ReportDependsOnlyOnLookups(generatedAt: string, a: PlanData, b: PlanData)
    requires forall d, r :: 0 <= d < |DiasSemana| && 0 <= r < |Refeicoes| ==> MealText(a, DiasSemana[d], Refeicoes[r]) == MealText(b, DiasSemana[d], Refeicoes[r])
    requires a.observacoes.GetOr("") == b.observacoes.GetOr("")
    ensures ReportLines(generatedAt, a) == ReportLines(generatedAt, b)
  {
    DayBlocksDependOnlyOnLookups(a, b, DiasSemana);
  }
}
