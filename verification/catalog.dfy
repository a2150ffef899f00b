/** The fixed rubric: 27 criteria in six categories, 100 points in all.
    The list is one literal in the program; here it is written as the six
    commented sections it is laid out in, concatenated in the same order. */
module Catalog {
  import opened Types
  import opened Grouping

  const AberturaCategory: string := "1. Abertura"
  const CadastroCategory: string := "2. Atualização Cadastral"
  const DialogoCategory: string := "4. Diálogo"
  const ConhecimentoCategory: string := "5. Conhecimento"
  const FinalizacaoCategory: string := "6. Finalização"
  const SistemaCategory: string := "Sistema"

  /** The id of the automatic bonus, the one entry whose name does not repeat its id. */
  const BonusId: string := "BONUS"

  /** A numbered rubric entry, whose name is its id, a space and its title. */
  function Numbered(id: string, category: string, title: string, description: string, weight: int): (c: Criterion)
    ensures c.id == id && c.category == category && c.description == description && c.weight == weight
    ensures c.id + " " <= c.name
  {
    Criterion(id, category, id + " " + title, description, weight)
  }

  /** 1. Abertura (14 pts) */
  const Abertura: seq<Criterion> := [
    Numbered("1.1", AberturaCategory, "Script e Personalização", "Iniciou em até 5s, seguiu script e personalizou.", 3),
    Numbered("1.2", AberturaCategory, "Receptividade", "Abertura positiva e perguntou como gostaria de ser chamado.", 2),
    Numbered("1.3", AberturaCategory, "Proatividade", "Perguntou como ajudar antes de pedir dados.", 2),
    Numbered("1.4", AberturaCategory, "Segurança LGPD", "Confirmação de dados conforme script de segurança.", 3),
    Numbered("1.5", AberturaCategory, "Sondagem Sistêmica", "Verificou histórico para evitar repetição.", 4)
  ]

  /** 2. Atualização Cadastral (14 pts) */
  const Cadastro: seq<Criterion> := [
    Numbered("2.1", CadastroCategory, "Titularidade", "Confirmou nome do titular/abriu SS se necessário.", 3),
    Numbered("2.2", CadastroCategory, "Endereço UC", "Confirmou endereço/abriu SS se necessário.", 3),
    Numbered("2.3", CadastroCategory, "Inclusão de RG", "Atualizou RG quando necessário.", 3),
    Numbered("2.4", CadastroCategory, "Data de Nascimento", "Atualizou data de nascimento no cadastro.", 5)
  ]

  /** 4. Diálogo (35 pts) */
  const Dialogo: seq<Criterion> := [
    Numbered("4.1", DialogoCategory, "Empatia e Cordialidade", "Interesse, paciência e equilíbrio emocional.", 7),
    Numbered("4.2", DialogoCategory, "Personalização Contínua", "Chamou pelo nome preferido durante o atendimento.", 3),
    Numbered("4.3", DialogoCategory, "Concentração", "Atenção ao relato sem pedir repetição.", 4),
    Numbered("4.4", DialogoCategory, "Norma Culta e Registro", "Escrita/fala sem gírias e registro completo.", 3),
    Numbered("4.5", DialogoCategory, "Gestão de Espera", "Som ambiente ou mudo correto (retorno < 1min).", 5),
    Numbered("4.6", DialogoCategory, "Ritmo de Fala", "Sem pressa ou interrupções.", 3),
    Numbered("4.7", DialogoCategory, "Protocolo", "Informou protocolo pausadamente (mesmo se recusado).", 3),
    Numbered("4.8", DialogoCategory, "Script Ocorrência Técnica", "Seguiu script para evitar DSES.", 7)
  ]

  /** 5. Conhecimento (20 pts) */
  const Conhecimento: seq<Criterion> := [
    Numbered("5.1", ConhecimentoCategory, "Conhecimento Técnico", "Demonstrou domínio dos procedimentos.", 5),
    Numbered("5.2", ConhecimentoCategory, "Resolutividade", "Atendimento completo e esclarecedor.", 5),
    Numbered("5.3", ConhecimentoCategory, "Tipologia Correta", "Registrou a demanda na categoria correta.", 3),
    Numbered("5.5", ConhecimentoCategory, "Argumentação de Reclamação", "Argumentou para evitar abertura de reclamação.", 4),
    Numbered("5.6", ConhecimentoCategory, "Resolução 1000", "Deixou claro se era informação ou reclamação.", 3)
  ]

  /** 6. Finalização (8 pts) */
  const Finalizacao: seq<Criterion> := [
    Numbered("6.1", FinalizacaoCategory, "Canais Digitais", "Orientou sobre canais digitais.", 3),
    Numbered("6.2", FinalizacaoCategory, "Ajuda Adicional", "Perguntou se podia ajudar com algo mais.", 2),
    Numbered("6.3", FinalizacaoCategory, "Script Positivo", "Encerramento prazeroso e educado.", 2),
    Numbered("6.4", FinalizacaoCategory, "Pesquisa de Satisfação", "Direcionou para a pesquisa.", 1)
  ]

  /** Bônus Automático (9 pts) */
  const Sistema: seq<Criterion> := [
    Criterion(BonusId, SistemaCategory, "Bônus Operacional Automático", "Pontuação atribuída automaticamente a todas as monitorias.", 9)
  ]

  /** The whole rubric, in display and prompt order. */
  const DefaultScorecard: seq<Criterion> := Abertura + Cadastro + Dialogo + Conhecimento + Finalizacao + Sistema

  /** The six sections with their category labels, in order. */
  const Sections: seq<(string, seq<Criterion>)> := [
    (AberturaCategory, Abertura),
    (CadastroCategory, Cadastro),
    (DialogoCategory, Dialogo),
    (ConhecimentoCategory, Conhecimento),
    (FinalizacaoCategory, Finalizacao),
    (SistemaCategory, Sistema)
  ]

  /** The grouping key the scorecard page and the detail view use. */
  function CategoryOf(c: Criterion): string { c.category }

  function Ids(cat: seq<Criterion>): (ids: seq<string>)
    ensures |ids| == |cat|
    ensures forall i :: 0 <= i < |cat| ==> ids[i] == cat[i].id
  {
    seq(|cat|, i requires 0 <= i < |cat| => cat[i].id)
  }

  function Weights(cat: seq<Criterion>): (ws: seq<int>)
    ensures |ws| == |cat|
    ensures forall i :: 0 <= i < |cat| ==> ws[i] == cat[i].weight
  {
    seq(|cat|, i requires 0 <= i < |cat| => cat[i].weight)
  }

  function Sum(xs: seq<int>): int
  {
    if |xs| == 0 then 0 else xs[0] + Sum(xs[1..])
  }

  /** Sum of the maximum points of a list of criteria. */
  function SumWeights(cat: seq<Criterion>): int
  {
    Sum(Weights(cat))
  }

  /** The first criterion with the given id, as an array `find` returns it. */
  function Find(cat: seq<Criterion>, id: string): (r: Option<Criterion>)
    ensures r.None? <==> forall c :: c in cat ==> c.id != id
    ensures r.Some? ==> r.value in cat && r.value.id == id
    ensures r.Some? ==> exists i :: 0 <= i < |cat| && cat[i] == r.value &&
                                    (forall j :: 0 <= j < i ==> cat[j].id != id)
  {
    if |cat| == 0 then None
    else if cat[0].id == id then Some(cat[0])
    else
      var r := Find(cat[1..], id);
      assert forall c :: c in cat[1..] ==> c in cat;
      assert r.Some? ==> exists i :: 0 <= i < |cat[1..]| && cat[1..][i] == r.value &&
                                     (forall j :: 0 <= j < i ==> cat[1..][j].id != id);
      r
  }

  // ---------------------------------------------------------------------
  // Generic facts

  lemma {:induction false} SumAppend(a: seq<int>, b: seq<int>)
    ensures Sum(a + b) == Sum(a) + Sum(b)
    decreases |a|
  {
    if |a| == 0 {
      assert a + b == b;
    } else {
      assert (a + b)[1..] == a[1..] + b;
      SumAppend(a[1..], b);
    }
  }

  /** A pointwise smaller list of numbers has a smaller sum. */
  lemma {:induction false} SumMonotone(xs: seq<int>, ys: seq<int>)
    requires |xs| == |ys|
    requires forall i :: 0 <= i < |xs| ==> xs[i] <= ys[i]
    ensures Sum(xs) <= Sum(ys)
    decreases |xs|
  {
    if |xs| > 0 {
      SumMonotone(xs[1..], ys[1..]);
    }
  }

  lemma SumWeightsAppend(a: seq<Criterion>, b: seq<Criterion>)
    ensures SumWeights(a + b) == SumWeights(a) + SumWeights(b)
  {
    assert Weights(a + b) == Weights(a) + Weights(b);
    SumAppend(Weights(a), Weights(b));
  }

  /** With pairwise distinct ids, looking an entry's id up gives back that entry. */
  lemma {:induction false} FindUnique(cat: seq<Criterion>, i: nat)
    requires Distinct(Ids(cat)) && i < |cat|
    ensures Find(cat, cat[i].id) == Some(cat[i])
    decreases |cat|
  {
    if i > 0 {
      assert Ids(cat)[0] != Ids(cat)[i];
      assert Ids(cat[1..]) == Ids(cat)[1..];
      FindUnique(cat[1..], i - 1);
    }
  }

  /** Joining two lists whose ids are distinct within and across them keeps ids distinct. */
  lemma DistinctIdsAppend(a: seq<Criterion>, b: seq<Criterion>)
    requires Distinct(Ids(a)) && Distinct(Ids(b))
    requires forall x, y :: x in a && y in b ==> x.id != y.id
    ensures Distinct(Ids(a + b))
  {
    forall i, j | 0 <= i < j < |a + b| ensures Ids(a + b)[i] != Ids(a + b)[j] {
      if j < |a| {
        assert Ids(a)[i] != Ids(a)[j];
      } else if i >= |a| {
        assert Ids(b)[i - |a|] != Ids(b)[j - |a|];
      } else {
        assert a[i] in a && b[j - |a|] in b;
      }
    }
  }
  // ---------------------------------------------------------------------
  // Facts about the rubric

  /** Every id in `sec` opens with the character `d`. */
  predicate IdsOpenWith(sec: seq<Criterion>, d: char)
  {
    forall c :: c in sec ==> c.id != [] && c.id[0] == d
  }

  /** Every entry of `sec` carries category `cat` and a positive weight, and
      its id opens with `d`. */
  predicate Shaped(sec: seq<Criterion>, cat: string, d: char)
  {
    sec != [] && IdsOpenWith(sec, d) && forall c :: c in sec ==> c.category == cat && c.weight > 0
  }

  // Facts about the literal rubric are stated once per section, and the
  // whole-rubric lemmas combine them: one lemma over all 27 literal entries
  // costs the solver far more than six small ones.

  lemma AberturaShape()
    ensures Shaped(Abertura, AberturaCategory, '1')
  {
    AberturaIdsOpen();
    AberturaFiled();
  }

  lemma AberturaIdsOpen() ensures IdsOpenWith(Abertura, '1') {}
  lemma AberturaFiled() ensures forall c :: c in Abertura ==> c.category == AberturaCategory && c.weight > 0 {}

  lemma CadastroShape()
    ensures Shaped(Cadastro, CadastroCategory, '2')
  {
    CadastroIdsOpen();
    CadastroFiled();
  }

  lemma CadastroIdsOpen() ensures IdsOpenWith(Cadastro, '2') {}
  lemma CadastroFiled() ensures forall c :: c in Cadastro ==> c.category == CadastroCategory && c.weight > 0 {}

  lemma DialogoShape()
    ensures Shaped(Dialogo, DialogoCategory, '4')
  {
    DialogoIdsOpen();
    DialogoFiled();
  }

  lemma DialogoIdsOpen() ensures IdsOpenWith(Dialogo, '4') {}
  lemma DialogoFiled() ensures forall c :: c in Dialogo ==> c.category == DialogoCategory && c.weight > 0 {}

  lemma ConhecimentoShape()
    ensures Shaped(Conhecimento, ConhecimentoCategory, '5')
  {
    ConhecimentoIdsOpen();
    ConhecimentoFiled();
  }

  lemma ConhecimentoIdsOpen() ensures IdsOpenWith(Conhecimento, '5') {}
  lemma ConhecimentoFiled() ensures forall c :: c in Conhecimento ==> c.category == ConhecimentoCategory && c.weight > 0 {}

  lemma FinalizacaoShape()
    ensures Shaped(Finalizacao, FinalizacaoCategory, '6')
  {
    FinalizacaoIdsOpen();
    FinalizacaoFiled();
  }

  lemma FinalizacaoIdsOpen() ensures IdsOpenWith(Finalizacao, '6') {}
  lemma FinalizacaoFiled() ensures forall c :: c in Finalizacao ==> c.category == FinalizacaoCategory && c.weight > 0 {}

  lemma SistemaShape()
    ensures Shaped(Sistema, SistemaCategory, 'B')
  {
    SistemaIdsOpen();
    SistemaFiled();
  }

  lemma SistemaIdsOpen() ensures IdsOpenWith(Sistema, 'B') {}
  lemma SistemaFiled() ensures forall c :: c in Sistema ==> c.category == SistemaCategory && c.weight > 0 {}

  /** Each section's entries carry the section's category and a positive
      weight, and their ids open with the section's number (the bonus's with
      its initial). */
  lemma SectionsShape()
    ensures Shaped(Abertura, AberturaCategory, '1')
    ensures Shaped(Cadastro, CadastroCategory, '2')
    ensures Shaped(Dialogo, DialogoCategory, '4')
    ensures Shaped(Conhecimento, ConhecimentoCategory, '5')
    ensures Shaped(Finalizacao, FinalizacaoCategory, '6')
    ensures Shaped(Sistema, SistemaCategory, 'B')
  {
    AberturaShape();
    CadastroShape();
    DialogoShape();
    ConhecimentoShape();
    FinalizacaoShape();
    SistemaShape();
  }

  /** An entry of six concatenated sections belongs to one of them. */
  lemma MemberOfSix(a: seq<Criterion>, b: seq<Criterion>, c: seq<Criterion>,
                    d: seq<Criterion>, e: seq<Criterion>, f: seq<Criterion>, x: Criterion)
    requires x in a + b + c + d + e + f
    ensures x in a || x in b || x in c || x in d || x in e || x in f
  {
  }

  /** An entry of the rubric belongs to one of its sections. */
  lemma InSomeSection(x: Criterion)
    requires x in DefaultScorecard
    ensures x in Abertura || x in Cadastro || x in Dialogo || x in Conhecimento || x in Finalizacao || x in Sistema
  {
    MemberOfSix(Abertura, Cadastro, Dialogo, Conhecimento, Finalizacao, Sistema, x);
  }

  /** Six labelled sections, flattened, are the sections concatenated. */
  lemma FlattenSix(ka: string, a: seq<Criterion>, kb: string, b: seq<Criterion>, kc: string, c: seq<Criterion>,
                   kd: string, d: seq<Criterion>, ke: string, e: seq<Criterion>, kf: string, f: seq<Criterion>)
    ensures Flatten([(ka, a), (kb, b), (kc, c), (kd, d), (ke, e), (kf, f)]) == a + b + c + d + e + f
  {
    var g := [(ka, a), (kb, b), (kc, c), (kd, d), (ke, e), (kf, f)];
    assert Flatten(g[5..]) == f by {
      assert g[5..][1..] == [];
    }
    assert Flatten(g[4..]) == e + f by {
      assert g[4..][1..] == g[5..];
    }
    assert Flatten(g[3..]) == d + e + f by {
      assert g[3..][1..] == g[4..];
    }
    assert Flatten(g[2..]) == c + d + e + f by {
      assert g[2..][1..] == g[3..];
    }
    assert Flatten(g[1..]) == b + c + d + e + f by {
      assert g[1..][1..] == g[2..];
    }
  }

  /** The rubric has 27 entries and lists its six sections in order. */
  lemma CatalogSize()
    ensures |DefaultScorecard| == 27
    ensures Flatten(Sections) == DefaultScorecard
  {
    assert |Abertura| == 5 && |Cadastro| == 4 && |Dialogo| == 8;
    assert |Conhecimento| == 5 && |Finalizacao| == 4 && |Sistema| == 1;
    FlattenSix(AberturaCategory, Abertura, CadastroCategory, Cadastro, DialogoCategory, Dialogo,
               ConhecimentoCategory, Conhecimento, FinalizacaoCategory, Finalizacao, SistemaCategory, Sistema);
  }

  /** Every weight is a positive whole number of points. */
  lemma WeightsPositive()
    ensures forall c :: c in DefaultScorecard ==> c.weight > 0
  {
    SectionsShape();
    forall x | x in DefaultScorecard
      ensures x.weight > 0
    {
      InSomeSection(x);
    }
  }

  // One subtotal per section, for the same reason as the shape lemmas.
  lemma AberturaSubtotal()
    ensures SumWeights(Abertura) == 14
  {
    assert Weights(Abertura) == [3, 2, 2, 3, 4];
    assert Sum([3, 2, 2, 3, 4]) == 14;
  }

  lemma CadastroSubtotal()
    ensures SumWeights(Cadastro) == 14
  {
    assert Weights(Cadastro) == [3, 3, 3, 5];
    assert Sum([3, 3, 3, 5]) == 14;
  }

  lemma DialogoSubtotal()
    ensures SumWeights(Dialogo) == 35
  {
    assert Weights(Dialogo) == [7, 3, 4, 3, 5, 3, 3, 7];
    assert Sum([7, 3, 4, 3, 5, 3, 3, 7]) == 35;
  }

  lemma ConhecimentoSubtotal()
    ensures SumWeights(Conhecimento) == 20
  {
    assert Weights(Conhecimento) == [5, 5, 3, 4, 3];
    assert Sum([5, 5, 3, 4, 3]) == 20;
  }

  lemma FinalizacaoSubtotal()
    ensures SumWeights(Finalizacao) == 8
  {
    assert Weights(Finalizacao) == [3, 2, 2, 1];
    assert Sum([3, 2, 2, 1]) == 8;
  }

  lemma SistemaSubtotal()
    ensures SumWeights(Sistema) == 9
  {
    assert Weights(Sistema) == [9];
    assert Sum([9]) == 9;
  }

  /** Each section's weights add up to the subtotal written in its heading. */
  lemma SectionSubtotals()
    ensures SumWeights(Abertura) == 14
    ensures SumWeights(Cadastro) == 14
    ensures SumWeights(Dialogo) == 35
    ensures SumWeights(Conhecimento) == 20
    ensures SumWeights(Finalizacao) == 8
    ensures SumWeights(Sistema) == 9
  {
    AberturaSubtotal();
    CadastroSubtotal();
    DialogoSubtotal();
    ConhecimentoSubtotal();
    FinalizacaoSubtotal();
    SistemaSubtotal();
  }

  /** The weights of the whole rubric add up to 100 points. */
  lemma TotalIsHundred()
    ensures SumWeights(DefaultScorecard) == 100
  {
    SectionSubtotals();
    SumWeightsAppend(Abertura, Cadastro);
    SumWeightsAppend(Abertura + Cadastro, Dialogo);
    SumWeightsAppend(Abertura + Cadastro + Dialogo, Conhecimento);
    SumWeightsAppend(Abertura + Cadastro + Dialogo + Conhecimento, Finalizacao);
    SumWeightsAppend(Abertura + Cadastro + Dialogo + Conhecimento + Finalizacao, Sistema);
  }

  // Ids are shown distinct within each section, then across sections by
  // their opening digit.
  lemma AberturaIdsDistinct()
    ensures Distinct(Ids(Abertura))
  {
    assert Ids(Abertura) == ["1.1", "1.2", "1.3", "1.4", "1.5"];
  }

  lemma CadastroIdsDistinct()
    ensures Distinct(Ids(Cadastro))
  {
    assert Ids(Cadastro) == ["2.1", "2.2", "2.3", "2.4"];
  }

  lemma DialogoIdsDistinct()
    ensures Distinct(Ids(Dialogo))
  {
    assert Ids(Dialogo) == ["4.1", "4.2", "4.3", "4.4", "4.5", "4.6", "4.7", "4.8"];
  }

  lemma ConhecimentoIdsDistinct()
    ensures Distinct(Ids(Conhecimento))
  {
    assert Ids(Conhecimento) == ["5.1", "5.2", "5.3", "5.5", "5.6"];
  }

  lemma FinalizacaoIdsDistinct()
    ensures Distinct(Ids(Finalizacao))
  {
    assert Ids(Finalizacao) == ["6.1", "6.2", "6.3", "6.4"];
  }

  lemma SistemaIdsDistinct()
    ensures Distinct(Ids(Sistema))
  {
    assert Ids(Sistema) == ["BONUS"];
  }

  /** Appending a section whose ids all open with a character no earlier id
      opens with keeps the ids distinct. */
  lemma AppendSection(a: seq<Criterion>, b: seq<Criterion>, ds: set<char>, d: char)
    requires Distinct(Ids(a)) && Distinct(Ids(b))
    requires forall c :: c in a ==> c.id != [] && c.id[0] in ds
    requires forall c :: c in b ==> c.id != [] && c.id[0] == d
    requires d !in ds
    ensures Distinct(Ids(a + b))
    ensures forall c :: c in a + b ==> c.id != [] && c.id[0] in ds + {d}
  {
    DistinctIdsAppend(a, b);
  }

  /** Six sections with distinct ids, each opening its ids with its own
      character, have distinct ids together. */
  lemma DistinctSix(a: seq<Criterion>, b: seq<Criterion>, c: seq<Criterion>,
                    d: seq<Criterion>, e: seq<Criterion>, f: seq<Criterion>)
    requires Distinct(Ids(a)) && Distinct(Ids(b)) && Distinct(Ids(c))
    requires Distinct(Ids(d)) && Distinct(Ids(e)) && Distinct(Ids(f))
    requires IdsOpenWith(a, '1') && IdsOpenWith(b, '2') && IdsOpenWith(c, '4')
    requires IdsOpenWith(d, '5') && IdsOpenWith(e, '6') && IdsOpenWith(f, 'B')
    ensures Distinct(Ids(a + b + c + d + e + f))
  {
    AppendSection(a, b, {'1'}, '2');
    AppendSection(a + b, c, {'1', '2'}, '4');
    AppendSection(a + b + c, d, {'1', '2', '4'}, '5');
    AppendSection(a + b + c + d, e, {'1', '2', '4', '5'}, '6');
    AppendSection(a + b + c + d + e, f, {'1', '2', '4', '5', '6'}, 'B');
  }

  /** Ids are pairwise distinct, so a lookup by id finds at most one criterion. */
  lemma IdsDistinct()
    ensures Distinct(Ids(DefaultScorecard))
  {
    SectionsShape();
    AberturaIdsDistinct();
    CadastroIdsDistinct();
    DialogoIdsDistinct();
    ConhecimentoIdsDistinct();
    FinalizacaoIdsDistinct();
    SistemaIdsDistinct();
    DistinctSix(Abertura, Cadastro, Dialogo, Conhecimento, Finalizacao, Sistema);
  }

  /** Looking up the id of any rubric entry finds that very entry. */
  lemma FindById(i: nat)
    requires i < |DefaultScorecard|
    ensures Find(DefaultScorecard, DefaultScorecard[i].id) == Some(DefaultScorecard[i])
  {
    IdsDistinct();
    FindUnique(DefaultScorecard, i);
  }

  /** Each name of `sec` opens with its entry's id and a space. */
  predicate NamedAfterIds(sec: seq<Criterion>)
  {
    forall c :: c in sec ==> c.id + " " <= c.name
  }

  // One lemma per numbered section; the bonus entry is the exception.
  lemma AberturaNamed() ensures NamedAfterIds(Abertura) {}
  lemma CadastroNamed() ensures NamedAfterIds(Cadastro) {}
  lemma DialogoNamed() ensures NamedAfterIds(Dialogo) {}
  lemma ConhecimentoNamed() ensures NamedAfterIds(Conhecimento) {}
  lemma FinalizacaoNamed() ensures NamedAfterIds(Finalizacao) {}

  /** Every name except the bonus's opens with its id and a space. */
  lemma NamesStartWithIds()
    ensures forall c :: c in DefaultScorecard && c.id != BonusId ==> c.id + " " <= c.name
  {
    AberturaNamed();
    CadastroNamed();
    DialogoNamed();
    ConhecimentoNamed();
    FinalizacaoNamed();
    forall x | x in DefaultScorecard && x.id != BonusId
      ensures x.id + " " <= x.name
    {
      InSomeSection(x);
      assert x !in Sistema;
    }
  }

  /** Every rubric entry has a non-empty category. */
  lemma CategoriesNonEmpty()
    ensures forall c :: c in DefaultScorecard ==> c.category != ""
  {
    SectionsShape();
    forall x | x in DefaultScorecard
      ensures x.category != ""
    {
      InSomeSection(x);
    }
  }

  /** Six shaped, non-empty sections under distinct labels form a run list. */
  lemma SixRuns(ka: string, a: seq<Criterion>, kb: string, b: seq<Criterion>, kc: string, c: seq<Criterion>,
                kd: string, d: seq<Criterion>, ke: string, e: seq<Criterion>, kf: string, f: seq<Criterion>,
                da: char, db: char, dc: char, dd: char, de: char, df: char)
    requires Shaped(a, ka, da) && Shaped(b, kb, db) && Shaped(c, kc, dc)
    requires Shaped(d, kd, dd) && Shaped(e, ke, de) && Shaped(f, kf, df)
    requires Distinct(KeysOf([(ka, a), (kb, b), (kc, c), (kd, d), (ke, e), (kf, f)]))
    ensures IsRunList([(ka, a), (kb, b), (kc, c), (kd, d), (ke, e), (kf, f)], CategoryOf)
  {
  }

  /** The sections form a run list: each is non-empty, all its entries
      carry its category, and no category heads two sections. */
  lemma SectionsAreRuns()
    ensures IsRunList(Sections, CategoryOf)
  {
    CategoriesDistinct();
    SectionsShape();
    SixRuns(AberturaCategory, Abertura, CadastroCategory, Cadastro, DialogoCategory, Dialogo,
            ConhecimentoCategory, Conhecimento, FinalizacaoCategory, Finalizacao, SistemaCategory, Sistema,
            '1', '2', '4', '5', '6', 'B');
  }

  lemma CategoriesDistinct()
    ensures Distinct(KeysOf(Sections))
  {
    assert KeysOf(Sections) == ["1. Abertura", "2. Atualização Cadastral", "4. Diálogo",
                                "5. Conhecimento", "6. Finalização", "Sistema"];
  }

  /** Grouping the rubric by category gives its six sections, in order, as
      the scorecard page lists them: entries of one category are adjacent,
      no group is empty, and the groups read in order are the rubric itself. */
  lemma CatalogGroups()
    ensures GroupBy(DefaultScorecard, CategoryOf) == Sections
    ensures Contiguous(KeySeq(DefaultScorecard, CategoryOf))
    ensures Flatten(GroupBy(DefaultScorecard, CategoryOf)) == DefaultScorecard
  {
    CatalogSize();
    SectionsAreRuns();
    GroupByRuns(Sections, CategoryOf);
  }

  /** The weights of each category add up to the subtotal in its heading. */
  lemma CategorySubtotals()
    ensures SumWeights(Select(DefaultScorecard, CategoryOf, AberturaCategory)) == 14
    ensures SumWeights(Select(DefaultScorecard, CategoryOf, CadastroCategory)) == 14
    ensures SumWeights(Select(DefaultScorecard, CategoryOf, DialogoCategory)) == 35
    ensures SumWeights(Select(DefaultScorecard, CategoryOf, ConhecimentoCategory)) == 20
    ensures SumWeights(Select(DefaultScorecard, CategoryOf, FinalizacaoCategory)) == 8
    ensures SumWeights(Select(DefaultScorecard, CategoryOf, SistemaCategory)) == 9
  {
    CatalogGroups();
    GroupByIsSelect(DefaultScorecard, CategoryOf);
    SectionSubtotals();
    var g := GroupBy(DefaultScorecard, CategoryOf);
    assert g[0] == (AberturaCategory, Abertura);
    assert g[1] == (CadastroCategory, Cadastro);
    assert g[2] == (DialogoCategory, Dialogo);
    assert g[3] == (ConhecimentoCategory, Conhecimento);
    assert g[4] == (FinalizacaoCategory, Finalizacao);
    assert g[5] == (SistemaCategory, Sistema);
  }
}
