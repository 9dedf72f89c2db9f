/**
 * The learning page: three concept cards with flash cards, and a quiz that walks through a
 * concept's questions in a cycle, revealing each answer on demand.
 */
module LearnPage {
  import opened Wrappers

  datatype QA = QA(q: string, a: string)

  datatype Concept = Concept(id: string, title: string, summary: string, bullets: seq<string>, qa: seq<QA>)

  /** The concepts, in the order of their buttons. */
  const Concepts: seq<Concept> := [
    Concept("llm", "대규모 언어 모델 (LLM)",
      "대량의 텍스트 데이터로 학습한 모델로, 자연어 이해/생성에 특화되어 있어요.",
      ["사전학습(Pretraining) + 미세조정(Finetuning)", "토큰 확률 분포를 이용해 다음 단어를 예측", "프롬프트 엔지니어링으로 성능 향상"],
      [QA("LLM이 텍스트를 생성하는 기본 메커니즘은?", "다음 토큰의 확률을 예측해 시퀀스를 생성"),
       QA("미세조정(Finetuning)의 목적은?", "특정 태스크에 맞게 성능을 향상")]),
    Concept("embedding", "임베딩 (Embedding)",
      "텍스트/이미지 등을 벡터 공간에 매핑해 의미적 유사도를 계산할 수 있게 해요.",
      ["의미적 검색, 군집화, 추천에 활용", "코사인 유사도 등으로 근접도 계산"],
      [QA("임베딩의 대표적 활용 예시는?", "의미적 검색(semantic search)")]),
    Concept("rag", "RAG (Retrieval-Augmented Generation)",
      "검색으로 외부 지식을 불러와 LLM 생성에 보강하는 패턴이에요.",
      ["지식 최신성, 사실성 향상", "임베딩 기반 검색과 프롬프트 컨텍스트 결합"],
      [QA("RAG를 쓰는 이유는?", "모델 파라미터 밖의 최신/전문 지식을 활용")])
  ]

  /** The concept ids are distinct and every concept has at least one question. */
  predicate WellFormedConcepts(cs: seq<Concept>) {
    && (forall i, j :: 0 <= i < j < |cs| ==> cs[i].id != cs[j].id)
    && (forall i :: 0 <= i < |cs| ==> |cs[i].qa| > 0)
  }

  lemma ConceptsWellFormed()
    ensures WellFormedConcepts(Concepts) && |Concepts| > 0
  {
  }

  /** `concepts.find(c => c.id === activeId)`: the first concept with the id, if any. */
  function FindConcept(cs: seq<Concept>, id: string): (r: Option<nat>)
    ensures r.Some? ==> r.value < |cs| && cs[r.value].id == id && forall k :: 0 <= k < r.value ==> cs[k].id != id
    ensures r.None? ==> forall k :: 0 <= k < |cs| ==> cs[k].id != id
  {
    if cs == [] then None
    else if cs[0].id == id then Some(0)
    else match FindConcept(cs[1..], id)
      case None => None
      case Some(k) => Some(k + 1)
  }

  /** Every concept is found by its own id, at its own position. */
  lemma FindsEveryConcept(i: nat)
    requires i < |Concepts|
    ensures FindConcept(Concepts, Concepts[i].id) == Some(i)
  {
    ConceptsWellFormed();
  }

  /** `qa[currentIdx % qa.length]`: the question shown for an index. */
  function Question(c: Concept, idx: nat): (r: QA)
    requires |c.qa| > 0
    ensures r in c.qa
    ensures r == c.qa[idx % |c.qa|]
  {
    c.qa[idx % |c.qa|]
  }

  /** The questions come round again after a full cycle, and a one-question concept always shows it. */
  lemma QuestionsCycle(c: Concept, idx: nat)
    requires |c.qa| > 0
    ensures Question(c, idx + |c.qa|) == Question(c, idx)
    ensures |c.qa| == 1 ==> Question(c, idx) == c.qa[0]
  {
    ModAddDivisor(idx, |c.qa|);
  }

  /** Adding the divisor does not change the remainder. */
  lemma ModAddDivisor(a: nat, n: nat)
    requires n > 0
    ensures (a + n) % n == a % n
  {
    var q, m := a / n, a % n;
    var q', m' := (a + n) / n, (a + n) % n;
    assert a == n * q + m && 0 <= m < n;
    assert a + n == n * q' + m' && 0 <= m' < n;
    var k := q' - q - 1;
    assert n * q' == n * q + n * k + n by {
      assert q' == q + k + 1;
    }
    assert n * k == m - m';
  }

  class Page {
    var activeId: string
    var quizMode: bool
    var currentIdx: nat
    var showAnswer: bool

    /** The active id names a concept, so the non-null `find(...)!` holds. */
    predicate Valid()
      reads this
    {
      FindConcept(Concepts, activeId).Some?
    }

    /** The first render: the first concept, study view, first question, answer hidden. */
    constructor ()
      ensures Valid() && activeId == Concepts[0].id && !quizMode && currentIdx == 0 && !showAnswer
      ensures Active() == Concepts[0]
    {
      activeId := Concepts[0].id;
      quizMode := false;
      currentIdx := 0;
      showAnswer := false;
    }

    /** `concepts.find(c => c.id === activeId)!`: the active concept, which always has a question. */
    function Active(): (r: Concept)
      requires Valid()
      reads this
      ensures r in Concepts && r.id == activeId
      ensures |r.qa| > 0
    {
      ConceptsWellFormed();
      Concepts[FindConcept(Concepts, activeId).value]
    }

    /** `qa[currentIdx % qa.length]`: the question the quiz shows. */
    function Shown(): (r: QA)
      requires Valid()
      reads this
      ensures r in Active().qa
      ensures r == Active().qa[currentIdx % |Active().qa|]
    {
      Question(Active(), currentIdx)
    }

    /** A concept button: that concept, back to the study view, the first question, the answer hidden. */
    method SelectConcept(i: nat)
      requires i < |Concepts|
      modifies this
      ensures Valid() && activeId == Concepts[i].id && !quizMode && currentIdx == 0 && !showAnswer
      ensures Active() == Concepts[i] && Shown() == Concepts[i].qa[0]
    {
      activeId := Concepts[i].id;
      quizMode := false;
      currentIdx := 0;
      showAnswer := false;
      FindsEveryConcept(i);
      ConceptsWellFormed();
    }

    /** "퀴즈 풀기": the quiz view, keeping the concept and the question index. */
    method StartQuiz()
      modifies this`quizMode
      ensures quizMode
    {
      quizMode := true;
    }

    /** "정답 보기" / "정답 숨기기": the answer's visibility flips. */
    method ToggleAnswer()
      modifies this`showAnswer
      ensures showAnswer == !old(showAnswer)
    {
      showAnswer := !showAnswer;
    }

    /** "다음 문제": the next question in the cycle, its answer hidden. */
    method NextQuestion()
      requires Valid()
      modifies this`currentIdx, this`showAnswer
      ensures Valid() && currentIdx == old(currentIdx) + 1 && !showAnswer
      ensures Shown() == Active().qa[(old(currentIdx) + 1) % |Active().qa|]
    {
      currentIdx := currentIdx + 1;
      showAnswer := false;
    }

    /** "학습 보기로": back to the study view, keeping the question index. */
    method BackToStudy()
      modifies this`quizMode
      ensures !quizMode
    {
      quizMode := false;
    }
  }
}
